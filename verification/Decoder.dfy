/** The decoder as it runs: one shared token stream, and a small state machine per struct, map and
    slice that advances it.  Every state function keeps `Finish`, the outcome of running to the end. */
module Decoder {
  import opened Wrappers
  import opened JsonText
  import opened JsonStream
  import opened GoTypes
  import Unmarshal

  class JsonDecoder {
    var s: Stream

    constructor (input: seq<Lex>)
      ensures s == Stream(input, TopValue, [])
    { s := Stream(input, TopValue, []); }

    method Token() returns (r: Option<Lex>)
      modifies this
      ensures Took(JsonStream.Token(old(s)), r)
    {
      var next := JsonStream.Token(s);
      if next.None? { return None; }
      s := next.value.1;
      r := Some(next.value.0);
    }

    method Decode() returns (r: Option<Json>)
      modifies this
      ensures Took(JsonStream.Decode(old(s)), r)
    {
      var next := JsonStream.Decode(s);
      if next.None? { return None; }
      s := next.value.1;
      r := Some(next.value.0);
    }

    /** The call returned what the stream function says, and moved the stream accordingly. */
    ghost predicate Took<T>(expected: Option<(T, Stream)>, r: Option<T>)
      reads this
    {
      match expected
      case None => r.None?
      case Some((t, d)) => r == Some(t) && s == d
    }
  }

  datatype State = Start | Next | StoreValue | StoreAdditional | Stop | Failed

  /** States of one machine that do not consume input are ordered. */
  function Rank(st: State): nat {
    match st
    case Next => 3
    case StoreValue => 2
    case StoreAdditional => 1
    case _ => 0
  }

  class StructDecoder {
    const dec: JsonDecoder
    const fields: seq<Field>
    var vals: seq<Value>
    var key: string

    constructor (dec: JsonDecoder, fields: seq<Field>, vals: seq<Value>)
      requires |vals| == |fields|
      ensures this.dec == dec && this.fields == fields && this.vals == vals
    {
      this.dec, this.fields, this.vals, this.key := dec, fields, vals, "";
    }

    ghost function Finish(st: State): Unmarshal.Outcome
      reads this, dec
      requires |vals| == |fields|
    {
      match st
      case Start => Unmarshal.ReadStruct(fields, StructV(vals), dec.s)
      case Next => Unmarshal.NextMember(fields, vals, dec.s)
      case StoreValue => Unmarshal.StoreMember(fields, vals, key, dec.s)
      case StoreAdditional => Unmarshal.StoreUnknown(fields, vals, key, dec.s)
      case Stop => Some((StructV(vals), dec.s))
      case Failed => None
    }

    method Run() returns (r: Option<Value>)
      requires |vals| == |fields|
      modifies this, dec
      ensures dec.Took(old(Finish(Start)), r)
      decreases |dec.s.input|, 2
    {
      var st := First();
      while st != Stop && st != Failed
        invariant |vals| == |fields| && st != Start
        invariant st != Failed ==> |dec.s.input| < |old(dec.s.input)|
        invariant Finish(st) == old(Finish(Start))
        decreases if st == Failed then 0 else |dec.s.input| + 1, Rank(st)
      {
        if st == Next {
          st := NextKey();
        } else if st == StoreValue {
          st := Store();
        } else {
          st := StoreUnknown();
        }
      }
      r := if st == Stop then Some(StructV(vals)) else None;
    }

    method First() returns (st: State)
      requires |vals| == |fields|
      modifies dec
      ensures st in {Next, Failed} && Finish(st) == old(Finish(Start))
      ensures st == Next ==> |dec.s.input| < |old(dec.s.input)|
    {
      if !HasAdd(fields) { return Failed; }
      var t := dec.Token();
      st := if t == Some(LBrace) then Next else Failed;
    }

    method NextKey() returns (st: State)
      requires |vals| == |fields|
      modifies this, dec
      ensures vals == old(vals) && st in {StoreValue, Stop, Failed} && Finish(st) == old(Finish(Next))
      ensures st != Failed ==> |dec.s.input| < |old(dec.s.input)|
    {
      var more := More(dec.s);
      var t := dec.Token();
      if t.None? { return Failed; }
      if !more { return Stop; }
      if !t.value.Str? { return Failed; }
      key := t.value.s;
      st := StoreValue;
    }

    method Store() returns (st: State)
      requires |vals| == |fields|
      modifies this, dec
      ensures |vals| == |fields| && st in {Next, StoreAdditional, Failed} && Finish(st) == old(Finish(StoreValue))
      ensures st == Next ==> |dec.s.input| < |old(dec.s.input)|
      ensures st == StoreAdditional ==> dec.s == old(dec.s)
      decreases |dec.s.input|, 4
    {
      var i := Target(fields, key);
      if i < 0 { return StoreAdditional; }
      if Private(fields[i]) { return Failed; }
      var w := ReadInto(dec, fields[i].schema, vals[i]);
      if w.None? { return Failed; }
      vals := vals[i := w.value];
      st := Next;
    }

    method StoreUnknown() returns (st: State)
      requires |vals| == |fields|
      modifies this, dec
      ensures |vals| == |fields| && st in {Next, Failed} && Finish(st) == old(Finish(StoreAdditional))
      ensures st == Next ==> |dec.s.input| < |old(dec.s.input)|
    {
      var raw := dec.Decode();
      if raw.None? { return Failed; }
      vals := Unmarshal.StoreAdditional(fields, vals, key, raw.value);
      st := Next;
    }
  }

  class MapWalk {
    const dec: JsonDecoder
    const e: Schema
    var m: map<string, Value>
    var key: string

    constructor (dec: JsonDecoder, e: Schema)
      ensures this.dec == dec && this.e == e && m == map[]
    {
      this.dec, this.e, this.m, this.key := dec, e, map[], "";
    }

    ghost function Finish(st: State): Unmarshal.Outcome
      reads this, dec
    {
      match st
      case Next => Unmarshal.NextEntry(e, m, dec.s)
      case StoreValue => Unmarshal.StoreEntry(e, m, key, dec.s)
      case Stop => Some((MapV(m), dec.s))
      case _ => None
    }

    /** Runs from behind the opening brace. */
    method Run() returns (r: Option<Value>)
      modifies this, dec
      ensures dec.Took(old(Finish(Next)), r)
      decreases |dec.s.input|, 6
    {
      var st := Next;
      while st != Stop && st != Failed
        invariant st in {Next, StoreValue, Stop, Failed}
        invariant st != Failed ==> |dec.s.input| <= |old(dec.s.input)|
        invariant Finish(st) == old(Finish(Next))
        decreases if st == Failed then 0 else |dec.s.input| + 1, Rank(st)
      {
        if st == Next { st := NextKey(); } else { st := Store(); }
      }
      r := if st == Stop then Some(MapV(m)) else None;
    }

    method NextKey() returns (st: State)
      modifies this, dec
      ensures st in {StoreValue, Stop, Failed} && Finish(st) == old(Finish(Next))
      ensures st != Failed ==> |dec.s.input| < |old(dec.s.input)|
    {
      var more := More(dec.s);
      var t := dec.Token();
      if t.None? { return Failed; }
      if !more { return Stop; }
      if !t.value.Str? { return Failed; }
      key := t.value.s;
      st := StoreValue;
    }

    method Store() returns (st: State)
      modifies this, dec
      ensures st in {Next, Failed} && Finish(st) == old(Finish(StoreValue))
      ensures st == Next ==> |dec.s.input| < |old(dec.s.input)|
      decreases |dec.s.input|, 5
    {
      var w := ReadFresh(dec, e);
      if w.None? { return Failed; }
      m := m[key := w.value];
      st := Next;
    }
  }

  class SliceWalk {
    const dec: JsonDecoder
    const e: Schema
    const cur: Value
    var items: seq<Value>

    constructor (dec: JsonDecoder, e: Schema, cur: Value)
      ensures this.dec == dec && this.e == e && this.cur == cur && items == []
    {
      this.dec, this.e, this.cur, this.items := dec, e, cur, [];
    }

    ghost function Finish(st: State): Unmarshal.Outcome
      reads this, dec
    {
      match st
      case Next => Unmarshal.NextItem(e, cur, items, dec.s)
      case StoreValue => Unmarshal.StoreItem(e, cur, items, dec.s)
      case Stop => Some((if items == [] then cur else SliceV(items), dec.s))
      case _ => None
    }

    /** Runs from behind the opening bracket. */
    method Run() returns (r: Option<Value>)
      modifies this, dec
      ensures dec.Took(old(Finish(Next)), r)
      decreases |dec.s.input|, 6
    {
      var st := Next;
      while st != Stop && st != Failed
        invariant st in {Next, StoreValue, Stop, Failed}
        invariant st != Failed ==> |dec.s.input| <= |old(dec.s.input)|
        invariant Finish(st) == old(Finish(Next))
        decreases if st == Failed then 0 else |dec.s.input| + 1, Rank(st)
      {
        if st == Next { st := NextElem(); } else { st := Store(); }
      }
      r := if st == Failed then None else if items == [] then Some(cur) else Some(SliceV(items));
    }

    method NextElem() returns (st: State)
      modifies dec
      ensures st in {StoreValue, Stop, Failed} && Finish(st) == old(Finish(Next))
      ensures st == StoreValue ==> dec.s == old(dec.s)
      ensures st == Stop ==> |dec.s.input| < |old(dec.s.input)|
    {
      if More(dec.s) { return StoreValue; }
      var t := dec.Token();
      st := if t.None? then Failed else Stop;
    }

    method Store() returns (st: State)
      modifies this, dec
      ensures st in {Next, Failed} && Finish(st) == old(Finish(StoreValue))
      ensures st == Next ==> |dec.s.input| < |old(dec.s.input)|
      decreases |dec.s.input|, 5
    {
      var w := ReadFresh(dec, e);
      if w.None? { return Failed; }
      items := items + [w.value];
      st := Next;
    }
  }

  /** Decodes the next value into a variable of type `s` that holds `cur`. */
  method ReadInto(dec: JsonDecoder, s: Schema, cur: Value) returns (r: Option<Value>)
    modifies dec
    ensures dec.Took(old(Unmarshal.Read(s, cur, dec.s)), r)
    decreases |dec.s.input|, 3, s
  {
    match s {
      case Leaf(k) =>
        var j := dec.Decode();
        if j.None? { return None; }
        r := Unmarshal.FromLeaf(k, cur, j.value);
      case Ptr(e) =>
        if !e.Leaf? && !e.Struct? { return None; }
        if Own(e) {
          var j := dec.Decode();
          if j.None? { return None; }
          return Unmarshal.FromJson(s, cur, j.value);
        }
        var w := ReadInto(dec, e, if cur.PtrV? then cur.v else Zero(e));
        r := if w.None? then None else Some(PtrV(w.value));
      case Struct(fields) =>
        if !cur.StructV? || |cur.vals| != |fields| { return None; }
        var walk := new StructDecoder(dec, fields, cur.vals);
        r := walk.Run();
      case Map(e) => r := UnmarshalMap(dec, e);
      case Slice(e) => r := UnmarshalSlice(dec, e, SliceV([]));
    }
  }

  /** An element of a container starts from a fresh zero value. */
  method ReadFresh(dec: JsonDecoder, e: Schema) returns (r: Option<Value>)
    modifies dec
    ensures dec.Took(old(Unmarshal.ReadElem(e, dec.s)), r)
    decreases |dec.s.input|, 4
  {
    match e {
      case Map(e') =>
        r := UnmarshalMap(dec, e');
        if r == Some(NilV) { r := Some(MapV(map[])); }
      case Slice(e') => r := UnmarshalSlice(dec, e', NilV);
      case _ =>
        if !Composite(e) { return None; }
        r := ReadInto(dec, e, Zero(e));
    }
  }

  method UnmarshalMap(dec: JsonDecoder, e: Schema) returns (r: Option<Value>)
    modifies dec
    ensures dec.Took(old(Unmarshal.ReadMap(e, dec.s)), r)
    decreases |dec.s.input|, 2
  {
    if Basic(e) {
      var j := dec.Decode();
      if j.None? { return None; }
      r := Unmarshal.FromMap(e, j.value);
    } else if !Composite(e) {
      r := None;
    } else {
      var t := dec.Token();
      if t == Some(Null) { return Some(MapV(map[])); }
      if t != Some(LBrace) { return None; }
      var walk := new MapWalk(dec, e);
      r := walk.Run();
    }
  }

  method UnmarshalSlice(dec: JsonDecoder, e: Schema, cur: Value) returns (r: Option<Value>)
    modifies dec
    ensures dec.Took(old(Unmarshal.ReadSlice(e, cur, dec.s)), r)
    decreases |dec.s.input|, 2
  {
    if Basic(e) {
      var j := dec.Decode();
      if j.None? { return None; }
      r := Unmarshal.FromSlice(e, cur, j.value);
    } else if !Composite(e) {
      r := None;
    } else {
      var t := dec.Token();
      if t == Some(Null) { return Some(cur); }
      if t != Some(LBracket) { return None; }
      var walk := new SliceWalk(dec, e, cur);
      r := walk.Run();
    }
  }
}
