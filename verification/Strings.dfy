/** The few string operations of the standard library that the model needs, on ASCII strings. */
module Strings {
  import opened Wrappers

  /** The pieces of `s` between occurrences of `sep`; never empty, as in Go. */
  function Split(s: string, sep: char): (r: seq<string>)
    ensures |r| > 0
  {
    if s == "" then [""]
    else
      var more := Split(s[1..], sep);
      if s[0] == sep then [""] + more else [[s[0]] + more[0]] + more[1..]
  }

  function Join(parts: seq<string>, sep: string): string {
    if parts == [] then ""
    else if |parts| == 1 then parts[0]
    else parts[0] + sep + Join(parts[1..], sep)
  }

  function LowerChar(c: char): (r: char)
    ensures !('A' <= r <= 'Z')
  {
    if 'A' <= c <= 'Z' then (c as int + 32) as char else c
  }

  function ToLower(s: string): (r: string)
    ensures |r| == |s|
    ensures forall i | 0 <= i < |s| :: r[i] == LowerChar(s[i])
  {
    if s == "" then "" else [LowerChar(s[0])] + ToLower(s[1..])
  }

  predicate EqualFold(s: string, t: string) { ToLower(s) == ToLower(t) }

  predicate HasUpper(s: string) { exists c | c in s :: 'A' <= c <= 'Z' }

  /** `sub` occurs in `s`. */
  predicate Contains(s: string, sub: string) { exists i: nat | i <= |s| :: OccursAt(s, sub, i) }

  predicate OccursAt(s: string, sub: string, i: nat) { i + |sub| <= |s| && s[i..i + |sub|] == sub }

  lemma {:induction false} LowerIs(s: string, i: nat)
    requires i < |s|
    ensures 'A' <= s[i] <= 'Z' ==> ToLower(s)[i] as int - 'a' as int == s[i] as int - 'A' as int
    ensures !('A' <= s[i] <= 'Z') ==> ToLower(s)[i] == s[i]
  {
  }

  /** Lowercasing fixes exactly the strings without an uppercase letter. */
  lemma {:induction false} LowerFixed(s: string)
    ensures ToLower(s) == s <==> !HasUpper(s)
    ensures !HasUpper(ToLower(s))
    ensures ToLower(ToLower(s)) == ToLower(s)
  {
    if HasUpper(s) {
      var c :| c in s && 'A' <= c <= 'Z';
      var i :| 0 <= i < |s| && s[i] == c;
      assert ToLower(s)[i] != s[i];
    } else {
      assert forall i | 0 <= i < |s| :: s[i] in s;
    }
    assert forall i | 0 <= i < |s| :: ToLower(s)[i] == LowerChar(s[i]);
  }

  lemma {:induction false} LowerConcat(s: string, t: string)
    ensures ToLower(s + t) == ToLower(s) + ToLower(t)
  {
  }

  /** Splitting undoes joining when no part holds the separator. */
  lemma {:induction false} SplitJoin(parts: seq<string>, sep: char)
    requires parts != []
    requires forall p | p in parts :: sep !in p
    ensures Split(Join(parts, [sep]), sep) == parts
  {
    if |parts| == 1 {
      SplitWhole(parts[0], sep);
    } else {
      SplitJoin(parts[1..], sep);
      SplitFirst(parts[0], sep, Join(parts[1..], [sep]));
      assert parts[0] + [sep] + Join(parts[1..], [sep]) == parts[0] + ([sep] + Join(parts[1..], [sep]));
    }
  }

  lemma {:induction false} SplitWhole(s: string, sep: char)
    requires sep !in s
    ensures Split(s, sep) == [s]
  {
    if s != "" {
      SplitWhole(s[1..], sep);
      assert [s[0]] + s[1..] == s;
    }
  }

  lemma {:induction false} SplitFirst(s: string, sep: char, rest: string)
    requires sep !in s
    ensures Split(s + ([sep] + rest), sep) == [s] + Split(rest, sep)
  {
    if s == "" {
      assert s + ([sep] + rest) == [sep] + rest;
    } else {
      assert (s + ([sep] + rest))[1..] == s[1..] + ([sep] + rest);
      SplitFirst(s[1..], sep, rest);
      assert Split(s[1..] + ([sep] + rest), sep)[1..] == Split(rest, sep);
      assert [s[0]] + s[1..] == s;
    }
  }

  lemma {:induction false} LowerContains(s: string, sub: string)
    requires Contains(s, sub) && !HasUpper(sub)
    ensures Contains(ToLower(s), sub)
  {
    var i: nat :| i <= |s| && OccursAt(s, sub, i);
    LowerFixed(sub);
    forall j | 0 <= j < |sub| ensures ToLower(s)[i + j] == sub[j] {
      assert s[i + j] == s[i..i + |sub|][j] == sub[j] && ToLower(sub)[j] == LowerChar(sub[j]);
    }
    assert ToLower(s)[i..i + |sub|] == sub;
    assert OccursAt(ToLower(s), sub, i);
  }

  predicate IsDigit(c: char) { '0' <= c <= '9' }

  function Decimal(n: nat): string {
    if n < 10 then [('0' as int + n) as char] else Decimal(n / 10) + [('0' as int + n % 10) as char]
  }

  /** The number that the digits of `s` make, behind those read so far. */
  function ReadDigits(s: string, sofar: nat): Option<nat> {
    if s == "" then Some(sofar)
    else if IsDigit(s[0]) then ReadDigits(s[1..], 10 * sofar + (s[0] as int - '0' as int))
    else None
  }

  lemma {:induction false} DecimalRead(n: nat, t: string)
    ensures ReadDigits(Decimal(n) + t, 0) == ReadDigits(t, n)
  {
    var d := [('0' as int + n % 10) as char];
    assert (d + t)[0] == d[0] && (d + t)[1..] == t;
    if n >= 10 {
      DecimalRead(n / 10, d + t);
      assert Decimal(n) + t == Decimal(n / 10) + (d + t);
    }
  }

  function IntText(t: int): string { if t < 0 then "-" + Decimal(-t) else Decimal(t) }

  /** `strconv.Atoi`: digits, with or without a sign. */
  function ReadInt(s: string): Option<int> {
    if s == "" || s == "-" || s == "+" then None
    else
      var n :- ReadDigits(if s[0] == '-' || s[0] == '+' then s[1..] else s, 0);
      Some(if s[0] == '-' then 0 - n else n)
  }

  lemma {:induction false} DecimalStart(n: nat)
    ensures Decimal(n) != "" && IsDigit(Decimal(n)[0])
  {
    if n >= 10 { DecimalStart(n / 10); }
  }

  lemma IntBack(t: int)
    ensures ReadInt(IntText(t)) == Some(t)
  {
    var n := if t < 0 then -t else t;
    DecimalRead(n, "");
    DecimalStart(n);
    assert Decimal(n) + "" == Decimal(n);
    if t < 0 {
      assert IntText(t)[1..] == Decimal(n);
    }
  }
}
