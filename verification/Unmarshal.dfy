/** The decoder.  `FromJson` says what a whole document means for a variable of a given type;
    the `Read…` functions are the three state machines over the token stream;
    `ReadsText` proves that the machines compute that meaning and stop right behind the value. */
module Unmarshal {
  import opened Wrappers
  import opened JsonText
  import opened JsonStream
  import opened GoTypes

  // ----- meaning of a document -----

  /** The standard library's treatment of basic types: null leaves the variable alone, unless it is a value. */
  function FromLeaf(k: Kind, cur: Value, j: Json): Option<Value> {
    if !Plain(j) then None
    else if j == JNull && !TakesNull(k) then Some(cur)
    else if Fits(k, j) then Some(LeafV(j))
    else None
  }

  /** The value of a variable of type `s`, now holding `cur`, after decoding `j` into it. */
  function FromJson(s: Schema, cur: Value, j: Json): Option<Value>
    decreases j, 3, s
  {
    match s
    case Leaf(k) => FromLeaf(k, cur, j)
    case Ptr(e) =>
      if !e.Leaf? && !e.Struct? then None
      else if Own(e) && j == JNull then Some(NilV)
      else
        var w :- FromJson(e, if cur.PtrV? then cur.v else Zero(e), j);
        Some(PtrV(w))
    case Struct(fields) =>
      if !HasAdd(fields) || !j.JObj? || !cur.StructV? || |cur.vals| != |fields| then None
      else
        var vals :- FromMembers(fields, cur.vals, j.members);
        Some(StructV(vals))
    case Map(e) => FromMap(e, j)
    case Slice(e) => FromSlice(e, SliceV([]), j)
  }

  function FromMembers(fields: seq<Field>, vals: seq<Value>, members: seq<Member>): (r: Option<seq<Value>>)
    requires |vals| == |fields|
    ensures r.Some? ==> |r.value| == |fields|
    decreases members, 0
  {
    if members == [] then Some(vals)
    else
      var vals' :- FromMember(fields, vals, members[0]);
      FromMembers(fields, vals', members[1..])
  }

  /** One member: into its field, or verbatim among the unknown members. */
  function FromMember(fields: seq<Field>, vals: seq<Value>, m: Member): (r: Option<seq<Value>>)
    requires |vals| == |fields|
    ensures r.Some? ==> |r.value| == |fields|
    decreases m, 0
  {
    var i := Target(fields, m.key);
    if i < 0 then
      if Plain(m.val) then Some(StoreAdditional(fields, vals, m.key, m.val)) else None
    else if Private(fields[i]) then None
    else
      var w :- FromJson(fields[i].schema, vals[i], m.val);
      Some(vals[i := w])
  }

  function StoreAdditional(fields: seq<Field>, vals: seq<Value>, key: string, raw: Json): (r: seq<Value>)
    requires |vals| == |fields|
    ensures |r| == |fields|
  {
    var a := IndexOfGo(fields, ADD_FIELD);
    if a < 0 then vals
    else vals[a := MapV((if vals[a].MapV? then vals[a].m else map[])[key := LeafV(raw)])]
  }

  function FromMap(e: Schema, j: Json): Option<Value>
    decreases j, 2
  {
    if !Basic(e) && !Composite(e) then None
    else if j == JNull then Some(if Basic(e) then NilV else MapV(map[]))
    else if !j.JObj? then None
    else
      var m :- FromEntries(e, map[], j.members);
      Some(MapV(m))
  }

  function FromEntries(e: Schema, m: map<string, Value>, members: seq<Member>): Option<map<string, Value>>
    decreases members, 0
  {
    if members == [] then Some(m)
    else
      var w :- FromElem(e, members[0].val);
      FromEntries(e, m[members[0].key := w], members[1..])
  }

  function FromSlice(e: Schema, cur: Value, j: Json): Option<Value>
    decreases j, 2
  {
    if !Basic(e) && !Composite(e) then None
    else if j == JNull then Some(if Basic(e) then NilV else cur)
    else if !j.JArr? then None
    else
      var items :- FromItems(e, [], j.items);
      Some(if items == [] && !Basic(e) then cur else SliceV(items))
  }

  function FromItems(e: Schema, done: seq<Value>, items: seq<Json>): Option<seq<Value>>
    decreases items, 0
  {
    if items == [] then Some(done)
    else
      var w :- FromElem(e, items[0]);
      FromItems(e, done + [w], items[1..])
  }

  /** An element of a map or slice starts from a fresh zero value; a map element from an empty map. */
  function FromElem(e: Schema, j: Json): Option<Value>
    decreases j, 4
  {
    match e
    case Map(e') =>
      var w :- FromMap(e', j);
      Some(if w.NilV? then MapV(map[]) else w)
    case Slice(e') => FromSlice(e', NilV, j)
    case _ => if Basic(e) || Composite(e) then FromJson(e, Zero(e), j) else None
  }

  // ----- the state machines -----

  type Outcome = Option<(Value, Stream)>

  function Read(s: Schema, cur: Value, d: Stream): (r: Outcome)
    ensures r.Some? ==> |r.value.1.input| < |d.input|
    decreases |d.input|, 3, s
  {
    match s
    case Leaf(k) =>
      var (j, d') :- Decode(d);
      var w :- FromLeaf(k, cur, j);
      Some((w, d'))
    case Ptr(e) =>
      if !e.Leaf? && !e.Struct? then None
      else if Own(e) then
        var (j, d') :- Decode(d);
        var w :- FromJson(s, cur, j);
        Some((w, d'))
      else
        var (w, d') :- Read(e, if cur.PtrV? then cur.v else Zero(e), d);
        Some((PtrV(w), d'))
    case Struct(fields) => ReadStruct(fields, cur, d)
    case Map(e) => ReadMap(e, d)
    case Slice(e) => ReadSlice(e, SliceV([]), d)
  }

  function ReadStruct(fields: seq<Field>, cur: Value, d: Stream): (r: Outcome)
    ensures r.Some? ==> |r.value.1.input| < |d.input|
    decreases |d.input|, 2
  {
    if !HasAdd(fields) || !cur.StructV? || |cur.vals| != |fields| then None
    else
      var (t, d') :- Token(d);
      if t != LBrace then None else NextMember(fields, cur.vals, d')
  }

  function NextMember(fields: seq<Field>, vals: seq<Value>, d: Stream): (r: Outcome)
    requires |vals| == |fields|
    ensures r.Some? ==> |r.value.1.input| < |d.input|
    decreases |d.input|, 1
  {
    var (t, d') :- Token(d);
    if !More(d) then Some((StructV(vals), d'))
    else if !t.Str? then None
    else StoreMember(fields, vals, t.s, d')
  }

  function StoreMember(fields: seq<Field>, vals: seq<Value>, key: string, d: Stream): (r: Outcome)
    requires |vals| == |fields|
    ensures r.Some? ==> |r.value.1.input| < |d.input|
    decreases |d.input|, 4
  {
    var i := Target(fields, key);
    if i < 0 then StoreUnknown(fields, vals, key, d)
    else if Private(fields[i]) then None
    else
      var (w, d') :- Read(fields[i].schema, vals[i], d);
      NextMember(fields, vals[i := w], d')
  }

  function StoreUnknown(fields: seq<Field>, vals: seq<Value>, key: string, d: Stream): (r: Outcome)
    requires |vals| == |fields|
    ensures r.Some? ==> |r.value.1.input| < |d.input|
    decreases |d.input|, 3
  {
    var (raw, d') :- Decode(d);
    NextMember(fields, StoreAdditional(fields, vals, key, raw), d')
  }

  function ReadMap(e: Schema, d: Stream): (r: Outcome)
    ensures r.Some? ==> |r.value.1.input| < |d.input|
    decreases |d.input|, 2
  {
    if Basic(e) then
      var (j, d') :- Decode(d);
      var w :- FromMap(e, j);
      Some((w, d'))
    else if !Composite(e) then None
    else
      var (t, d') :- Token(d);
      if t == Null then Some((MapV(map[]), d'))
      else if t != LBrace then None
      else NextEntry(e, map[], d')
  }

  function NextEntry(e: Schema, m: map<string, Value>, d: Stream): (r: Outcome)
    ensures r.Some? ==> |r.value.1.input| < |d.input|
    decreases |d.input|, 1
  {
    var (t, d') :- Token(d);
    if !More(d) then Some((MapV(m), d'))
    else if !t.Str? then None
    else StoreEntry(e, m, t.s, d')
  }

  function StoreEntry(e: Schema, m: map<string, Value>, key: string, d: Stream): (r: Outcome)
    ensures r.Some? ==> |r.value.1.input| < |d.input|
    decreases |d.input|, 5
  {
    var (w, d') :- ReadElem(e, d);
    NextEntry(e, m[key := w], d')
  }

  function ReadSlice(e: Schema, cur: Value, d: Stream): (r: Outcome)
    ensures r.Some? ==> |r.value.1.input| < |d.input|
    decreases |d.input|, 2
  {
    if Basic(e) then
      var (j, d') :- Decode(d);
      var w :- FromSlice(e, cur, j);
      Some((w, d'))
    else if !Composite(e) then None
    else
      var (t, d') :- Token(d);
      if t == Null then Some((cur, d'))
      else if t != LBracket then None
      else NextItem(e, cur, [], d')
  }

  /** Elements are appended to the slice `cur`, which stays as it is when there are none. */
  function NextItem(e: Schema, cur: Value, items: seq<Value>, d: Stream): (r: Outcome)
    ensures r.Some? ==> |r.value.1.input| < |d.input|
    decreases |d.input|, 6
  {
    if More(d) then StoreItem(e, cur, items, d)
    else
      var (_, d') :- Token(d);
      Some((if items == [] then cur else SliceV(items), d'))
  }

  function StoreItem(e: Schema, cur: Value, items: seq<Value>, d: Stream): (r: Outcome)
    ensures r.Some? ==> |r.value.1.input| < |d.input|
    decreases |d.input|, 5
  {
    var (w, d') :- ReadElem(e, d);
    NextItem(e, cur, items + [w], d')
  }

  function ReadElem(e: Schema, d: Stream): (r: Outcome)
    ensures r.Some? ==> |r.value.1.input| < |d.input|
    decreases |d.input|, 4
  {
    match e
    case Map(e') =>
      var (w, d') :- ReadMap(e', d);
      Some((if w.NilV? then MapV(map[]) else w, d'))
    case Slice(e') => ReadSlice(e', NilV, d)
    case _ => if Composite(e) then Read(e, Zero(e), d) else None
  }

  // ----- the machines compute the meaning -----

  function Lift(v: Option<Value>, d: Stream): Outcome {
    match v case None => None case Some(w) => Some((w, d))
  }

  function LiftVals(v: Option<seq<Value>>, d: Stream): Outcome {
    match v case None => None case Some(vals) => Some((StructV(vals), d))
  }

  /** On the text of any document, well formed or not, followed by anything, the machines for a
      type return what the document means for it, and leave exactly what follows the value. */
  lemma {:induction false} ReadsText(s: Schema, cur: Value, j: Json, rest: seq<Lex>, st: TokenState,
    stack: seq<TokenState>)
    requires Due(st)
    ensures Read(s, cur, Before(j, rest, st, stack)) == Lift(FromJson(s, cur, j), Past(rest, st, stack))
    decreases j, 3, s
  {
    hide Before, Past, TextThen, Decode, Due, ReadStruct, ReadMap, ReadSlice;
    match s
    case Leaf(_) => DecodeText(j, rest, st, stack);
    case Ptr(e) =>
      if Own(e) {
        DecodeText(j, rest, st, stack);
      } else if e.Leaf? || e.Struct? {
        ReadsText(e, if cur.PtrV? then cur.v else Zero(e), j, rest, st, stack);
      }
    case Struct(fields) => ReadsStruct(fields, cur, j, rest, st, stack);
    case Map(e) => ReadsMap(e, j, rest, st, stack);
    case Slice(e) => ReadsSlice(e, SliceV([]), j, rest, st, stack);
  }

  lemma {:induction false} ReadsStruct(fields: seq<Field>, cur: Value, j: Json, rest: seq<Lex>, st: TokenState,
    stack: seq<TokenState>)
    requires Due(st)
    ensures ReadStruct(fields, cur, Before(j, rest, st, stack)) ==
            Lift(FromJson(Struct(fields), cur, j), Past(rest, st, stack))
    decreases j, 2
  {
    hide Before, TextThen, Token, Due, HasAdd, NextMember, FromMembers;
    if HasAdd(fields) && cur.StructV? && |cur.vals| == |fields| {
      TokenText(j, rest, st, stack);
      if j.JObj? {
        OpenObject(j.members, rest, st, stack);
        ReadsMembers(fields, cur.vals, j.members, true, rest, [Inside(st)] + stack);
      }
    }
  }

  /** Behind the opening brace stand the members; behind the closing one, the stream is past the value. */
  lemma {:induction false} OpenObject(members: seq<Member>, rest: seq<Lex>, st: TokenState, stack: seq<TokenState>)
    requires Due(st)
    ensures TextThen(JObj(members), rest)[1..] == MembersLeft(members, true, rest)
    ensures Stream(rest, ValueEnd(([Inside(st)] + stack)[0]), ([Inside(st)] + stack)[1..]) == Past(rest, st, stack)
  {
  }

  lemma {:induction false} OpenArray(items: seq<Json>, rest: seq<Lex>, st: TokenState, stack: seq<TokenState>)
    requires Due(st)
    ensures TextThen(JArr(items), rest)[1..] == ItemsLeft(items, true, rest)
    ensures Stream(rest, ValueEnd(([Inside(st)] + stack)[0]), ([Inside(st)] + stack)[1..]) == Past(rest, st, stack)
  {
  }

  /** What is left of an object's text behind its opening brace, or behind an earlier member. */
  function MembersLeft(members: seq<Member>, first: bool, rest: seq<Lex>): seq<Lex> {
    (if first || members == [] then [] else [Comma]) + MembersThen(members, [RBrace] + rest)
  }

  function ObjectState(first: bool): TokenState { if first then ObjectStart else ObjectComma }

  lemma KeyToken(key: string, after: seq<Lex>, first: bool, stack: seq<TokenState>)
    ensures var d := Stream((if first then [] else [Comma]) + ([Str(key), Colon] + after), ObjectState(first), stack);
            More(d) && Token(d) == Some((Str(key), Stream([Colon] + after, ObjectColon, stack)))
  {
    var body := [Str(key), Colon] + after;
    assert body[1..] == [Colon] + after;
    if first {
      assert [] + body == body;
    } else {
      assert ([Comma] + body)[1..] == body;
      assert Token(Stream([Comma] + body, ObjectComma, stack)) == Token(Stream(body, ObjectKey, stack));
    }
  }

  lemma KeyText(members: seq<Member>, first: bool, rest: seq<Lex>, stack: seq<TokenState>)
    requires stack != []
    ensures var d := Stream(MembersLeft(members, first, rest), ObjectState(first), stack);
            if members == [] then
              !More(d) && Token(d) == Some((RBrace, Stream(rest, ValueEnd(stack[0]), stack[1..])))
            else
              More(d) && Token(d) == Some((Str(members[0].key),
                Before(members[0].val, MembersLeft(members[1..], false, rest), ObjectColon, stack)))
  {
    if members == [] {
      assert MembersLeft(members, first, rest) == [RBrace] + rest;
    } else {
      var tail := MembersLeft(members[1..], false, rest);
      assert tail == if |members| == 1 then [RBrace] + rest else [Comma] + MembersThen(members[1..], [RBrace] + rest);
      KeyToken(members[0].key, TextThen(members[0].val, tail), first, stack);
    }
  }

  lemma {:induction false} ReadsMembers(fields: seq<Field>, vals: seq<Value>, members: seq<Member>, first: bool,
    rest: seq<Lex>, stack: seq<TokenState>)
    requires |vals| == |fields| && stack != []
    ensures NextMember(fields, vals, Stream(MembersLeft(members, first, rest), ObjectState(first), stack)) ==
            LiftVals(FromMembers(fields, vals, members), Stream(rest, ValueEnd(stack[0]), stack[1..]))
    decreases members, 0
  {
    KeyText(members, first, rest, stack);
    if members != [] {
      ReadsMember(fields, vals, members[0], MembersLeft(members[1..], false, rest), stack);
      var next := FromMember(fields, vals, members[0]);
      if next.Some? {
        ReadsMembers(fields, next.value, members[1..], false, rest, stack);
      }
    }
  }

  lemma {:induction false} ReadsMember(fields: seq<Field>, vals: seq<Value>, m: Member, tail: seq<Lex>,
    stack: seq<TokenState>)
    requires |vals| == |fields|
    ensures StoreMember(fields, vals, m.key, Before(m.val, tail, ObjectColon, stack)) ==
            match FromMember(fields, vals, m)
            case None => None
            case Some(vals') => NextMember(fields, vals', Past(tail, ObjectColon, stack))
    decreases m, 0
  {
    var i := Target(fields, m.key);
    if i < 0 {
      DecodeText(m.val, tail, ObjectColon, stack);
    } else if !Private(fields[i]) {
      ReadsText(fields[i].schema, vals[i], m.val, tail, ObjectColon, stack);
    }
  }

  lemma {:induction false} ReadsMap(e: Schema, j: Json, rest: seq<Lex>, st: TokenState, stack: seq<TokenState>)
    requires Due(st)
    ensures ReadMap(e, Before(j, rest, st, stack)) == Lift(FromMap(e, j), Past(rest, st, stack))
    decreases j, 2
  {
    hide Before, TextThen, Decode, Due, Token;
    if Basic(e) {
      DecodeText(j, rest, st, stack);
      if j.JObj? && !Plain(j) { StrayEntry(e, map[], j.members); }
    } else if Composite(e) {
      TokenText(j, rest, st, stack);
      if j.JObj? {
        OpenObject(j.members, rest, st, stack);
        ReadsEntries(e, map[], j.members, true, rest, [Inside(st)] + stack);
      }
    }
  }

  lemma {:induction false} StrayEntry(e: Schema, m: map<string, Value>, members: seq<Member>)
    requires Basic(e) && exists x | x in members :: !Plain(x.val)
    ensures FromEntries(e, m, members) == None
    decreases members
  {
    assert FromElem(e, members[0].val) == FromLeaf(e.kind, Zero(e), members[0].val);
    if Plain(members[0].val) {
      assert members == [members[0]] + members[1..];
      var w := FromElem(e, members[0].val);
      if w.Some? { StrayEntry(e, m[members[0].key := w.value], members[1..]); }
    }
  }

  lemma {:induction false} ReadsEntries(e: Schema, m: map<string, Value>, members: seq<Member>, first: bool,
    rest: seq<Lex>, stack: seq<TokenState>)
    requires Composite(e) && stack != []
    ensures NextEntry(e, m, Stream(MembersLeft(members, first, rest), ObjectState(first), stack)) ==
            match FromEntries(e, m, members)
            case None => None
            case Some(m') => Some((MapV(m'), Stream(rest, ValueEnd(stack[0]), stack[1..])))
    decreases members, 0
  {
    KeyText(members, first, rest, stack);
    if members != [] {
      var x, tail := members[0], MembersLeft(members[1..], false, rest);
      ReadsElem(e, x.val, tail, ObjectColon, stack);
      var w := FromElem(e, x.val);
      if w.Some? {
        ReadsEntries(e, m[x.key := w.value], members[1..], false, rest, stack);
      }
    }
  }

  lemma {:induction false} ReadsSlice(e: Schema, cur: Value, j: Json, rest: seq<Lex>, st: TokenState,
    stack: seq<TokenState>)
    requires Due(st)
    ensures ReadSlice(e, cur, Before(j, rest, st, stack)) == Lift(FromSlice(e, cur, j), Past(rest, st, stack))
    decreases j, 2
  {
    hide Before, Past, TextThen, Decode, Due, Token;
    if Basic(e) {
      DecodeText(j, rest, st, stack);
      if j.JArr? && !Plain(j) { StrayItem(e, [], j.items); }
    } else if Composite(e) {
      if j.JArr? {
        ReadsArray(e, cur, j.items, rest, st, stack);
      } else {
        TokenText(j, rest, st, stack);
      }
    }
  }

  lemma {:induction false} ReadsArray(e: Schema, cur: Value, items: seq<Json>, rest: seq<Lex>, st: TokenState,
    stack: seq<TokenState>)
    requires Due(st) && Composite(e)
    ensures ReadSlice(e, cur, Before(JArr(items), rest, st, stack)) ==
            Lift(FromSlice(e, cur, JArr(items)), Past(rest, st, stack))
    decreases items, 1
  {
    hide Before, TextThen, Token, Due, NextItem, FromItems;
    TokenText(JArr(items), rest, st, stack);
    OpenArray(items, rest, st, stack);
    ReadsItems(e, cur, [], items, true, rest, [Inside(st)] + stack);
    assert ReadSlice(e, cur, Before(JArr(items), rest, st, stack)) ==
           NextItem(e, cur, [], Stream(ItemsLeft(items, true, rest), ArrayStart, [Inside(st)] + stack));
  }

  lemma {:induction false} StrayItem(e: Schema, done: seq<Value>, items: seq<Json>)
    requires Basic(e) && exists x | x in items :: !Plain(x)
    ensures FromItems(e, done, items) == None
    decreases items
  {
    assert FromElem(e, items[0]) == FromLeaf(e.kind, Zero(e), items[0]);
    if Plain(items[0]) {
      assert items == [items[0]] + items[1..];
      var w := FromElem(e, items[0]);
      if w.Some? { StrayItem(e, done + [w.value], items[1..]); }
    }
  }

  function ItemsLeft(items: seq<Json>, first: bool, rest: seq<Lex>): seq<Lex> {
    (if first || items == [] then [] else [Comma]) + ItemsThen(items, [RBracket] + rest)
  }

  function ArrayState(first: bool): TokenState { if first then ArrayStart else ArrayComma }

  lemma ItemText(items: seq<Json>, first: bool, rest: seq<Lex>, stack: seq<TokenState>)
    requires stack != []
    ensures var d := Stream(ItemsLeft(items, first, rest), ArrayState(first), stack);
            if items == [] then
              !More(d) && Token(d) == Some((RBracket, Stream(rest, ValueEnd(stack[0]), stack[1..])))
            else
              && d == Before(items[0], ItemsLeft(items[1..], false, rest), ArrayState(first), stack)
              && (if first && items[0] == JStray then !More(d) && Token(d) == None else More(d))
  {
    var d := Stream(ItemsLeft(items, first, rest), ArrayState(first), stack);
    if items == [] {
      assert d.input == [RBracket] + rest;
    } else {
      var tail := ItemsLeft(items[1..], false, rest);
      assert tail == if |items| == 1 then [RBracket] + rest else [Comma] + ItemsThen(items[1..], [RBracket] + rest);
      assert ItemsThen(items, [RBracket] + rest) == TextThen(items[0], tail);
      TextStart(items[0], tail);
    }
  }

  lemma {:induction false} ReadsItems(e: Schema, cur: Value, done: seq<Value>, items: seq<Json>, first: bool,
    rest: seq<Lex>, stack: seq<TokenState>)
    requires Composite(e) && stack != []
    ensures NextItem(e, cur, done, Stream(ItemsLeft(items, first, rest), ArrayState(first), stack)) ==
            match FromItems(e, done, items)
            case None => None
            case Some(vs) => Some((if vs == [] then cur else SliceV(vs), Stream(rest, ValueEnd(stack[0]), stack[1..])))
    decreases items, 0
  {
    ItemText(items, first, rest, stack);
    if items != [] {
      if first && items[0] == JStray {
        StrayElem(e);
      } else {
        ReadsElem(e, items[0], ItemsLeft(items[1..], false, rest), ArrayState(first), stack);
        var w := FromElem(e, items[0]);
        if w.Some? {
          ReadsItems(e, cur, done + [w.value], items[1..], false, rest, stack);
        }
      }
    }
  }

  lemma {:induction false} StrayElem(e: Schema)
    requires Composite(e)
    ensures FromElem(e, JStray) == None
  {
    if e.Ptr? { assert FromJson(e.elem, Zero(e.elem), JStray) == None; }
  }

  lemma {:induction false} ReadsElem(e: Schema, j: Json, rest: seq<Lex>, st: TokenState, stack: seq<TokenState>)
    requires Due(st) && Composite(e)
    ensures ReadElem(e, Before(j, rest, st, stack)) == Lift(FromElem(e, j), Past(rest, st, stack))
    decreases j, 4
  {
    match e
    case Map(e') => ReadsMap(e', j, rest, st, stack);
    case Slice(e') => ReadsSlice(e', NilV, j, rest, st, stack);
    case Struct(_) => ReadsText(e, Zero(e), j, rest, st, stack);
    case Ptr(_) => ReadsText(e, Zero(e), j, rest, st, stack);
    case Leaf(_) => ReadsText(e, Zero(e), j, rest, st, stack);
  }
}
