/** Lexemes, JSON documents, their canonical text, and the reader that the standard library
    runs when it is asked for "the next complete value".

    A buffer or an input is a sequence of lexemes.  Everything the printer ever truncates
    (comma, brace, bracket, the newline that `Encode` adds) is one byte long and one lexeme here,
    so "drop the last byte" is "drop the last lexeme". */
module JsonText {
  import opened Wrappers

  datatype Lex =
    | LBrace | RBrace | LBracket | RBracket | Comma | Colon | Newline
    | Str(s: string) | Num(n: string) | Bool(b: bool) | Null

  /** A JSON document.  Members of an object keep their order and may repeat a key.
      `JStray` is not JSON: it is the lone closing brace that the printer leaves behind for
      a struct without any emitted member. */
  datatype Json =
    | JNull | JBool(b: bool) | JNum(n: string) | JStr(s: string)
    | JArr(items: seq<Json>) | JObj(members: seq<Member>)
    | JStray
  datatype Member = Member(key: string, val: Json)

  /** True when no stray brace occurs anywhere in the document. */
  predicate Plain(j: Json) {
    match j
    case JStray => false
    case JArr(items) => forall x | x in items :: Plain(x)
    case JObj(members) => forall m | m in members :: Plain(m.val)
    case _ => true
  }

  /** The text of a document, followed by `rest`. */
  function TextThen(j: Json, rest: seq<Lex>): seq<Lex>
    decreases j, 1
  {
    match j
    case JNull => [Null] + rest
    case JBool(b) => [Bool(b)] + rest
    case JNum(n) => [Num(n)] + rest
    case JStr(s) => [Str(s)] + rest
    case JArr(items) => [LBracket] + ItemsThen(items, [RBracket] + rest)
    case JObj(members) => [LBrace] + MembersThen(members, [RBrace] + rest)
    case JStray => [RBrace] + rest
  }

  /** Values separated, and not followed, by commas. */
  function ItemsThen(items: seq<Json>, rest: seq<Lex>): seq<Lex>
    decreases items, 0
  {
    if items == [] then rest
    else if |items| == 1 then TextThen(items[0], rest)
    else TextThen(items[0], [Comma] + ItemsThen(items[1..], rest))
  }

  /** Members separated, and not followed, by commas. */
  function MembersThen(members: seq<Member>, rest: seq<Lex>): seq<Lex>
    decreases members, 0
  {
    if members == [] then rest
    else [Str(members[0].key), Colon] +
         TextThen(members[0].val, if |members| == 1 then rest else [Comma] + MembersThen(members[1..], rest))
  }

  function Text(j: Json): seq<Lex> { TextThen(j, []) }

  lemma {:induction false} TextThenIsText(j: Json, rest: seq<Lex>)
    ensures TextThen(j, rest) == Text(j) + rest
    decreases j, 1
  {
    match j
    case JArr(items) =>
      ItemsThenSplit(items, [RBracket] + rest);
      ItemsThenSplit(items, [RBracket] + []);
    case JObj(members) =>
      MembersThenSplit(members, [RBrace] + rest);
      MembersThenSplit(members, [RBrace] + []);
    case _ =>
  }

  lemma {:induction false} ItemsThenSplit(items: seq<Json>, rest: seq<Lex>)
    ensures ItemsThen(items, rest) == ItemsThen(items, []) + rest
    decreases items, 0
  {
    if |items| == 1 {
      TextThenIsText(items[0], rest);
    } else if items != [] {
      var more := items[1..];
      ItemsThenSplit(more, rest);
      TextThenIsText(items[0], [Comma] + ItemsThen(more, rest));
      TextThenIsText(items[0], [Comma] + ItemsThen(more, []));
    }
  }

  lemma {:induction false} MembersThenSplit(members: seq<Member>, rest: seq<Lex>)
    ensures MembersThen(members, rest) == MembersThen(members, []) + rest
    decreases members, 0
  {
    if |members| == 1 {
      TextThenIsText(members[0].val, rest);
    } else if members != [] {
      var more := members[1..];
      MembersThenSplit(more, rest);
      TextThenIsText(members[0].val, [Comma] + MembersThen(more, rest));
      TextThenIsText(members[0].val, [Comma] + MembersThen(more, []));
    }
  }

  /** Reads one complete value off the front. */
  function ReadValue(ts: seq<Lex>): (r: Option<(Json, seq<Lex>)>)
    ensures r.Some? ==> |r.value.1| < |ts| && Plain(r.value.0)
    decreases |ts|, 1
  {
    if ts == [] then None
    else
      var rest := ts[1..];
      match ts[0]
      case Null => Some((JNull, rest))
      case Bool(b) => Some((JBool(b), rest))
      case Num(n) => Some((JNum(n), rest))
      case Str(s) => Some((JStr(s), rest))
      case LBracket =>
        if rest != [] && rest[0] == RBracket then Some((JArr([]), rest[1..]))
        else
          var (items, after) :- ReadItems(rest);
          Some((JArr(items), after))
      case LBrace =>
        if rest != [] && rest[0] == RBrace then Some((JObj([]), rest[1..]))
        else
          var (members, after) :- ReadMembers(rest);
          Some((JObj(members), after))
      case _ => None
  }

  /** Reads `value (, value)* ]`. */
  function ReadItems(ts: seq<Lex>): (r: Option<(seq<Json>, seq<Lex>)>)
    ensures r.Some? ==> |r.value.1| < |ts| && forall x | x in r.value.0 :: Plain(x)
    decreases |ts|, 2
  {
    var (x, after) :- ReadValue(ts);
    if after == [] then None
    else if after[0] == RBracket then Some(([x], after[1..]))
    else if after[0] == Comma then
      var (more, rest) :- ReadItems(after[1..]);
      Some(([x] + more, rest))
    else None
  }

  /** Reads `key : value (, key : value)* }`. */
  function ReadMembers(ts: seq<Lex>): (r: Option<(seq<Member>, seq<Lex>)>)
    ensures r.Some? ==> |r.value.1| < |ts| && forall m | m in r.value.0 :: Plain(m.val)
    decreases |ts|, 2
  {
    if |ts| < 2 || !ts[0].Str? || ts[1] != Colon then None
    else
      var (x, after) :- ReadValue(ts[2..]);
      var m := Member(ts[0].s, x);
      if after == [] then None
      else if after[0] == RBrace then Some(([m], after[1..]))
      else if after[0] == Comma then
        var (more, rest) :- ReadMembers(after[1..]);
        Some(([m] + more, rest))
      else None
  }

  /** Reading undoes writing, whatever follows; a document with a stray brace is never readable. */
  lemma {:induction false} ReadText(j: Json, rest: seq<Lex>)
    ensures ReadValue(TextThen(j, rest)) == if Plain(j) then Some((j, rest)) else None
    decreases j, 1
  {
    match j
    case JArr(items) =>
      if items != [] {
        TextStart(items[0],
            if |items| == 1 then [RBracket] + rest else [Comma] + ItemsThen(items[1..], [RBracket] + rest));
        ReadItemsText(items, rest);
      }
    case JObj(members) =>
      if members != [] { ReadMembersText(members, rest); }
    case _ =>
  }

  lemma {:induction false} ReadItemsText(items: seq<Json>, rest: seq<Lex>)
    requires items != []
    ensures ReadItems(ItemsThen(items, [RBracket] + rest)) ==
            if forall x | x in items :: Plain(x) then Some((items, rest)) else None
    decreases items, 0
  {
    if |items| == 1 {
      ReadText(items[0], [RBracket] + rest);
      assert items == [items[0]];
    } else {
      var more := items[1..];
      ReadText(items[0], [Comma] + ItemsThen(more, [RBracket] + rest));
      ReadItemsText(more, rest);
      assert items == [items[0]] + more;
    }
  }

  lemma {:induction false} ReadMembersText(members: seq<Member>, rest: seq<Lex>)
    requires members != []
    ensures ReadMembers(MembersThen(members, [RBrace] + rest)) ==
            if forall m | m in members :: Plain(m.val) then Some((members, rest)) else None
    decreases members, 0
  {
    var first := members[0];
    if |members| == 1 {
      ReadText(first.val, [RBrace] + rest);
      assert MembersThen(members, [RBrace] + rest)[2..] == TextThen(first.val, [RBrace] + rest);
      assert members == [first];
    } else {
      var more := members[1..];
      var after := [Comma] + MembersThen(more, [RBrace] + rest);
      ReadText(first.val, after);
      ReadMembersText(more, rest);
      assert MembersThen(members, [RBrace] + rest)[2..] == TextThen(first.val, after);
      assert members == [first] + more;
    }
  }

  /** The text of a value never starts with a closing bracket, a comma or a colon. */
  lemma {:induction false} TextStart(j: Json, rest: seq<Lex>)
    ensures |TextThen(j, rest)| > 0
    ensures TextThen(j, rest)[0] !in {RBracket, Comma, Colon, Newline}
    ensures TextThen(j, rest)[0] == RBrace <==> j == JStray
  {
  }

  /** Every member followed by a comma: what the printer has written before it removes the last one. */
  function Trail(members: seq<Member>): seq<Lex> {
    if members == [] then []
    else Trail(members[..|members| - 1]) + MemberText(members[|members| - 1]) + [Comma]
  }

  function TrailItems(items: seq<Json>): seq<Lex> {
    if items == [] then []
    else TrailItems(items[..|items| - 1]) + Text(items[|items| - 1]) + [Comma]
  }

  lemma Assoc<T>(a: seq<T>, b: seq<T>, c: seq<T>)
    ensures (a + b) + c == a + (b + c)
  {
  }

  lemma Assoc4<T>(a: seq<T>, b: seq<T>, c: seq<T>, d: seq<T>)
    ensures a + b + c + d == a + (b + (c + d)) == a + (b + c + d)
  {
  }

  function MemberText(m: Member): seq<Lex> { [Str(m.key), Colon] + Text(m.val) }

  lemma {:induction false} TrailAppend(a: seq<Member>, b: seq<Member>)
    ensures Trail(a + b) == Trail(a) + Trail(b)
  {
    if b == [] {
      assert a + b == a;
    } else {
      var n := |b| - 1;
      var init, last := b[..n], b[n];
      assert (a + b)[..|a + b| - 1] == a + init && (a + b)[|a + b| - 1] == last;
      TrailAppend(a, init);
      Assoc4(Trail(a), Trail(init), MemberText(last), [Comma]);
    }
  }

  lemma TrailOne(m: Member)
    ensures Trail([m]) == MemberText(m) + [Comma]
  {
  }

  /** Writing a key, a value and a comma extends the trail by one member. */
  lemma {:induction false} TrailMember(pre: seq<Lex>, members: seq<Member>, m: Member)
    ensures pre + Trail(members) + MemberText(m) + [Comma] == pre + Trail(members + [m])
  {
    assert (members + [m])[..|members|] == members;
    Assoc4(pre, Trail(members), MemberText(m), [Comma]);
  }

  lemma {:induction false} TrailBlock(pre: seq<Lex>, a: seq<Member>, b: seq<Member>)
    ensures pre + Trail(a) + Trail(b) == pre + Trail(a + b)
  {
    TrailAppend(a, b);
    Assoc(pre, Trail(a), Trail(b));
  }

  /** A trail without its last comma is the canonical text. */
  lemma {:induction false} TrailCut(now: seq<Lex>, pre: seq<Lex>, members: seq<Member>)
    requires members != [] && now + [Comma] == pre + Trail(members)
    ensures now == pre + MembersThen(members, [])
  {
    TrailIsMembers(members);
    assert now + [Comma] == (pre + MembersThen(members, [])) + [Comma];
    assert now == (now + [Comma])[..|now|];
  }

  lemma {:induction false} TrailItem(pre: seq<Lex>, items: seq<Json>, x: Json)
    ensures pre + TrailItems(items) + Text(x) + [Comma] == pre + TrailItems(items + [x])
  {
    assert (items + [x])[..|items|] == items;
    Assoc4(pre, TrailItems(items), Text(x), [Comma]);
  }

  lemma {:induction false} TrailItemsAppend(a: seq<Json>, b: seq<Json>)
    ensures TrailItems(a + b) == TrailItems(a) + TrailItems(b)
  {
    if b == [] {
      assert a + b == a;
    } else {
      var n := |b| - 1;
      var init, last := b[..n], b[n];
      assert (a + b)[..|a + b| - 1] == a + init && (a + b)[|a + b| - 1] == last;
      TrailItemsAppend(a, init);
      Assoc4(TrailItems(a), TrailItems(init), Text(last), [Comma]);
    }
  }

  /** Truncating the final comma leaves exactly the canonical, comma-separated text. */
  lemma {:induction false} TrailIsMembers(members: seq<Member>)
    requires members != []
    ensures Trail(members) == MembersThen(members, []) + [Comma]
  {
    var first, more := members[0], members[1..];
    if more == [] {
      assert members == [first];
      TrailOne(first);
    } else {
      TrailIsMembers(more);
      Assoc(MemberText(first) + [Comma], MembersThen(more, []), [Comma]);
      assert Trail(members) == MemberText(first) + [Comma] + Trail(more) by {
        assert members == [first] + more;
        TrailOne(first);
        TrailAppend([first], more);
      }
      MembersHead(members);
    }
  }

  lemma {:induction false} MembersHead(members: seq<Member>)
    requires |members| > 1
    ensures MembersThen(members, []) == MemberText(members[0]) + [Comma] + MembersThen(members[1..], [])
  {
    var key, val, more := [Str(members[0].key), Colon], members[0].val, MembersThen(members[1..], []);
    TextThenIsText(val, [Comma] + more);
    assert MembersThen(members, []) == key + (Text(val) + ([Comma] + more));
    Assoc4(key, Text(val), [Comma], more);
  }

  lemma {:induction false} TrailIsItems(items: seq<Json>)
    requires items != []
    ensures TrailItems(items) == ItemsThen(items, []) + [Comma]
  {
    var first, more := items[0], items[1..];
    assert TrailItems([first]) == Text(first) + [Comma];
    if more == [] {
      assert items == [first];
    } else {
      TrailIsItems(more);
      assert TrailItems(items) == Text(first) + [Comma] + TrailItems(more) by {
        assert items == [first] + more;
        TrailItemsAppend([first], more);
      }
      TextThenIsText(first, [Comma] + ItemsThen(more, []));
      Assoc(Text(first), [Comma], ItemsThen(more, []));
      Assoc(Text(first) + [Comma], ItemsThen(more, []), [Comma]);
    }
  }
}
