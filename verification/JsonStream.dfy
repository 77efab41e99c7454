/** The standard library's streaming decoder: `Token`, `More` and `Decode` over one input,
    with the state that makes it insist on commas and colons. */
module JsonStream {
  import opened Wrappers
  import opened JsonText

  datatype TokenState =
    | TopValue | ArrayStart | ArrayValue | ArrayComma
    | ObjectStart | ObjectKey | ObjectColon | ObjectValue | ObjectComma

  datatype Stream = Stream(input: seq<Lex>, state: TokenState, stack: seq<TokenState>)

  predicate ValueAllowed(st: TokenState) { st in {TopValue, ArrayStart, ArrayValue, ObjectValue} }

  function ValueEnd(st: TokenState): TokenState {
    if st == ArrayStart || st == ArrayValue then ArrayComma else if st == ObjectValue then ObjectComma else st
  }

  predicate More(d: Stream) { d.input != [] && d.input[0] != RBrace && d.input[0] != RBracket }

  /** The next token; commas and colons are checked and skipped. */
  function Token(d: Stream): (r: Option<(Lex, Stream)>)
    ensures r.Some? ==> |r.value.1.input| < |d.input|
    decreases |d.input|
  {
    if d.input == [] then None
    else
      var t, rest := d.input[0], d.input[1..];
      match t
      case LBracket => if ValueAllowed(d.state) then Some((t, Stream(rest, ArrayStart, [d.state] + d.stack))) else None
      case LBrace => if ValueAllowed(d.state) then Some((t, Stream(rest, ObjectStart, [d.state] + d.stack))) else None
      case RBracket => if d.state in {ArrayStart, ArrayComma} then Pop(t, rest, d.stack) else None
      case RBrace => if d.state in {ObjectStart, ObjectComma} then Pop(t, rest, d.stack) else None
      case Colon => if d.state == ObjectColon then Token(Stream(rest, ObjectValue, d.stack)) else None
      case Comma =>
        if d.state == ArrayComma then Token(Stream(rest, ArrayValue, d.stack))
        else if d.state == ObjectComma then Token(Stream(rest, ObjectKey, d.stack))
        else None
      case Newline => None
      case _ =>
        if t.Str? && d.state in {ObjectStart, ObjectKey} then Some((t, Stream(rest, ObjectColon, d.stack)))
        else if ValueAllowed(d.state) then Some((t, Stream(rest, ValueEnd(d.state), d.stack)))
        else None
  }

  function Pop(t: Lex, rest: seq<Lex>, stack: seq<TokenState>): Option<(Lex, Stream)> {
    if stack == [] then None else Some((t, Stream(rest, ValueEnd(stack[0]), stack[1..])))
  }

  /** Decodes the next complete value, after the comma or colon that must precede it. */
  function Decode(d: Stream): (r: Option<(Json, Stream)>)
    ensures r.Some? ==> |r.value.1.input| < |d.input| && Plain(r.value.0)
  {
    var p :- Prepare(d);
    if !ValueAllowed(p.state) then None
    else
      var (j, rest) :- ReadValue(p.input);
      Some((j, Stream(rest, ValueEnd(p.state), p.stack)))
  }

  function Prepare(d: Stream): (r: Option<Stream>)
    ensures r.Some? ==> |r.value.input| <= |d.input|
  {
    if d.state == ArrayComma then
      if d.input != [] && d.input[0] == Comma then Some(Stream(d.input[1..], ArrayValue, d.stack)) else None
    else if d.state == ObjectColon then
      if d.input != [] && d.input[0] == Colon then Some(Stream(d.input[1..], ObjectValue, d.stack)) else None
    else Some(d)
  }

  /** Places where a value is due: at the top, in an array, or after a key. */
  predicate Due(st: TokenState) { st in {TopValue, ArrayStart, ArrayComma, ObjectColon} }

  /** The punctuation that precedes a value there. */
  function Lead(st: TokenState): seq<Lex> {
    if st == ArrayComma then [Comma] else if st == ObjectColon then [Colon] else []
  }

  function After(st: TokenState): TokenState {
    if st == ObjectColon then ObjectComma else if st == TopValue then TopValue else ArrayComma
  }

  /** A stream about to deliver the text of `j`, and then `rest`. */
  function Before(j: Json, rest: seq<Lex>, st: TokenState, stack: seq<TokenState>): Stream {
    Stream(Lead(st) + TextThen(j, rest), st, stack)
  }

  /** The same stream once the value has been consumed. */
  function Past(rest: seq<Lex>, st: TokenState, stack: seq<TokenState>): Stream { Stream(rest, After(st), stack) }

  /** The state on the stack while a value is being read. */
  function Inside(st: TokenState): TokenState {
    if st == ArrayComma then ArrayValue else if st == ObjectColon then ObjectValue else st
  }

  /** The comma or colon that is due is skipped, and nothing else. */
  lemma {:induction false} SkipLead(j: Json, rest: seq<Lex>, st: TokenState, stack: seq<TokenState>)
    requires Due(st)
    ensures Prepare(Before(j, rest, st, stack)) ==
            Some(Stream(TextThen(j, rest), if Lead(st) == [] then st else Inside(st), stack))
    ensures Token(Before(j, rest, st, stack)) == Token(Stream(TextThen(j, rest), Inside(st), stack))
  {
    var d := Before(j, rest, st, stack);
    if Lead(st) == [] {
      assert d.input == TextThen(j, rest);
    } else {
      assert d.input[1..] == TextThen(j, rest);
    }
  }

  lemma {:induction false} DecodeText(j: Json, rest: seq<Lex>, st: TokenState, stack: seq<TokenState>)
    requires Due(st)
    ensures Decode(Before(j, rest, st, stack)) == if Plain(j) then Some((j, Past(rest, st, stack))) else None
  {
    ReadText(j, rest);
    SkipLead(j, rest, st, stack);
  }

  /** The first token of a value: an opening bracket pushes the enclosing place, a scalar is consumed whole. */
  function FirstToken(j: Json, rest: seq<Lex>, st: TokenState, stack: seq<TokenState>): Option<(Lex, Stream)>
    requires TextThen(j, rest) != []
  {
    var t := TextThen(j, rest);
    match j
    case JStray => None
    case JObj(_) => Some((LBrace, Stream(t[1..], ObjectStart, [Inside(st)] + stack)))
    case JArr(_) => Some((LBracket, Stream(t[1..], ArrayStart, [Inside(st)] + stack)))
    case _ => Some((t[0], Past(rest, st, stack)))
  }

  lemma {:induction false} TokenInside(j: Json, rest: seq<Lex>, st: TokenState, stack: seq<TokenState>)
    requires Due(st)
    ensures TextThen(j, rest) != []
    ensures Token(Stream(TextThen(j, rest), Inside(st), stack)) == FirstToken(j, rest, st, stack)
  {
    TextStart(j, rest);
    assert j.JNull? || j.JBool? || j.JNum? || j.JStr? ==> TextThen(j, rest)[1..] == rest;
  }

  lemma {:induction false} TokenText(j: Json, rest: seq<Lex>, st: TokenState, stack: seq<TokenState>)
    requires Due(st)
    ensures TextThen(j, rest) != [] && Token(Before(j, rest, st, stack)) == FirstToken(j, rest, st, stack)
    ensures j.JNull? <==> TextThen(j, rest)[0] == Null
    ensures j.JObj? <==> TextThen(j, rest)[0] == LBrace
    ensures j.JArr? <==> TextThen(j, rest)[0] == LBracket
  {
    TextStart(j, rest);
    SkipLead(j, rest, st, stack);
    TokenInside(j, rest, st, stack);
    hide Token, Before, FirstToken, TextThen;
  }
}
