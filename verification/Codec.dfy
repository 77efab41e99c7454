/** The package's two entry points, and what a program that saves and reloads a value can rely on. */
module Codec {
  import opened Wrappers
  import opened JsonText
  import opened JsonStream
  import opened GoTypes
  import opened Marshal
  import opened RoundTrip
  import Unmarshal
  import Decoder

  /** Succeeds unless a nil pointer has to be followed, with the canonical text of the value's document. */
  method MarshalValue(fields: seq<Field>, v: Value) returns (r: Option<seq<Lex>>, ghost j: Json)
    requires Shaped(Struct(fields)) && Conforms(Struct(fields), v)
    ensures r.Some? <==> Printable(Struct(fields), v)
    ensures r.Some? ==> Represents(Struct(fields), v, j) && r.value == Text(j)
  {
    var buf := new Buffer();
    var ok;
    ok, j := MarshalStruct(fields, v, buf);
    assert [] + Text(j) == Text(j);
    r := if ok then Some(buf.data) else None;
  }

  /** Decodes into a struct that holds `cur`; the empty input changes nothing. */
  method UnmarshalValue(fields: seq<Field>, cur: Value, b: seq<Lex>) returns (r: Option<Value>)
    ensures b == [] ==> r == Some(cur)
    ensures b != [] ==>
      match Unmarshal.Read(Struct(fields), cur, Stream(b, TopValue, []))
      case None => r.None?
      case Some((v, _)) => r == Some(v)
  {
    if b == [] { return Some(cur); }
    var dec := new Decoder.JsonDecoder(b);
    r := Decoder.ReadInto(dec, Struct(fields), cur);
  }

  /** Reading a printed value followed by anything gives its normal form and stops right behind it,
      exactly when the value is clean; and the value itself exactly when it is settled, too. */
  lemma {:induction false} PrintedReadsBack(fields: seq<Field>, v: Value, j: Json, rest: seq<Lex>)
    requires Supported(Struct(fields)) && Conforms(Struct(fields), v) && Represents(Struct(fields), v, j)
    ensures Unmarshal.Read(Struct(fields), Zero(Struct(fields)), Stream(Text(j) + rest, TopValue, [])) ==
              Some((Normal(Struct(fields), v), Stream(rest, TopValue, [])))
            <==> Clean(Struct(fields), v)
    ensures Unmarshal.Read(Struct(fields), Zero(Struct(fields)), Stream(Text(j) + rest, TopValue, [])) ==
              Some((v, Stream(rest, TopValue, [])))
            <==> Clean(Struct(fields), v) && Settled(Struct(fields), v)
  {
    hide Unmarshal.Read, Unmarshal.FromJson, Text, TextThen;
    hide Represents, Clean, Settled, Supported, Conforms, Normal, Zero;
    RoundTrips(Struct(fields), v, j);
    SameValueBack(Struct(fields), v, j);
    TextThenIsText(j, rest);
    var s := Struct(fields);
    assert Before(j, rest, TopValue, []).input == TextThen(j, rest);
    Unmarshal.ReadsText(s, Zero(s), j, rest, TopValue, []);
  }

  /** Saving a value and loading it into a new variable. */
  method SaveAndLoad(fields: seq<Field>, v: Value) returns (r: Option<Value>)
    requires Supported(Struct(fields)) && Conforms(Struct(fields), v)
    ensures r == Some(Normal(Struct(fields), v)) <==> Printable(Struct(fields), v) && Clean(Struct(fields), v)
    ensures r == Some(v) <==> Printable(Struct(fields), v) && Clean(Struct(fields), v) && Settled(Struct(fields), v)
  {
    hide Unmarshal.Read, Text, Represents, Clean, Settled, Supported, Shaped, Conforms, Normal, Zero, Printable;
    SupportedShaped(Struct(fields));
    var b, j := MarshalValue(fields, v);
    if b.None? { return None; }
    PrintedReadsBack(fields, v, j, []);
    TextThenIsText(j, []);
    TextStart(j, []);
    assert Text(j) + [] == Text(j);
    r := UnmarshalValue(fields, Zero(Struct(fields)), b.value);
    TopOutcome(fields, v, j);
  }

  /** At the top level nothing is left behind the value that was read. */
  lemma {:induction false} TopOutcome(fields: seq<Field>, v: Value, j: Json)
    requires Supported(Struct(fields)) && Conforms(Struct(fields), v) && Represents(Struct(fields), v, j)
    ensures var r := Unmarshal.Read(Struct(fields), Zero(Struct(fields)), Stream(Text(j), TopValue, []));
            r.Some? ==> r.value.1 == Stream([], TopValue, [])
  {
    hide Unmarshal.Read, Unmarshal.FromJson, Text, TextThen, Represents, Supported, Conforms, Zero;
    TextThenIsText(j, []);
    assert Before(j, [], TopValue, []).input == Text(j);
    Unmarshal.ReadsText(Struct(fields), Zero(Struct(fields)), j, [], TopValue, []);
  }

  const LONE_BLOCK := Field(ADD_FIELD, "-", ADD_SCHEMA)

  lemma BlockSupported()
    ensures Supported(Struct([LONE_BLOCK]))
  {
    assert IndexOfGo([LONE_BLOCK], ADD_FIELD) == 0;
  }

  lemma BlockEmpty()
    ensures Conforms(Struct([LONE_BLOCK]), StructV([NilV])) && Printable(Struct([LONE_BLOCK]), StructV([NilV]))
    ensures !Clean(Struct([LONE_BLOCK]), StructV([NilV])) && !Emits(LONE_BLOCK, NilV)
  {
    hide Supported, Represents, Unmarshal.Read;
  }

  /** A struct with one field that is left out is a lone closing brace. */
  lemma NothingWritten(f: Field, v: Value)
    requires !Emits(f, v)
    ensures Represents(Struct([f]), StructV([v]), JStray) && Text(JStray) == [RBrace]
  {
    hide Emits;
    var none: seq<Member> := [];
    assert RepresentsFields([f], [v], 0, none[..0]) && OwnMembers(f, v, none[0..]);
    assert RepresentsFields([f], [v], 1, none);
  }

  lemma {:induction false} StrayUnread(fields: seq<Field>, v: Value)
    requires v.StructV?
    ensures Unmarshal.Read(Struct(fields), v, Stream([RBrace], TopValue, [])) == None
  {
  }

  /** A struct whose only field is the empty block of unknown members prints as a lone closing brace,
      because the truncation meant for a comma takes the opening brace; nothing can read that. */
  lemma EmptyStructUnreadable()
    ensures var fields, v := [LONE_BLOCK], StructV([NilV]);
      && Supported(Struct(fields)) && Conforms(Struct(fields), v) && Printable(Struct(fields), v)
      && Represents(Struct(fields), v, JStray) && Text(JStray) == [RBrace]
      && !Clean(Struct(fields), v)
      && Unmarshal.Read(Struct(fields), v, Stream([RBrace], TopValue, [])) == None
  {
    hide *;
    BlockSupported();
    BlockEmpty();
    NothingWritten(LONE_BLOCK, NilV);
    StrayUnread([LONE_BLOCK], StructV([NilV]));
  }
}
