/** The text that is hashed to tell tokens with different cache key components apart. */
module CacheExtKey {
  import opened Wrappers
  import opened Strings
  import MapOrder

  // ----- sorting, as `sort.Strings` does -----

  /** Byte order. */
  predicate Less(s: string, t: string) {
    t != "" && (s == "" || s[0] < t[0] || (s[0] == t[0] && Less(s[1..], t[1..])))
  }

  lemma {:induction false} LessTotal(s: string, t: string)
    ensures Less(s, t) || Less(t, s) || s == t
    ensures !(Less(s, t) && Less(t, s)) && !Less(s, s)
  {
    if s != "" {
      LessTotal(s[1..], s[1..]);
      if t != "" && s[0] == t[0] {
        LessTotal(s[1..], t[1..]);
        assert s == [s[0]] + s[1..] && t == [t[0]] + t[1..];
      }
    }
  }

  lemma {:induction false} LessTransitive(s: string, t: string, u: string)
    requires Less(s, t) && Less(t, u)
    ensures Less(s, u)
  {
    if s != "" && s[0] == t[0] && t[0] == u[0] {
      LessTransitive(s[1..], t[1..], u[1..]);
    }
  }

  /** One comes before the other where they first differ, or where it ends. */
  lemma {:induction false} LessIs(s: string, t: string, n: nat)
    requires n <= |s| && n <= |t| && s[..n] == t[..n]
    ensures n == |s| < |t| ==> Less(s, t)
    ensures n < |s| && n < |t| && s[n] < t[n] ==> Less(s, t)
    ensures n == |t| || (n < |s| && n < |t| && s[n] > t[n]) ==> !Less(s, t)
  {
    if n > 0 {
      assert s[0] == s[..n][0] == t[..n][0] == t[0];
      assert s[1..][..n - 1] == s[..n][1..] && t[1..][..n - 1] == t[..n][1..];
      LessIs(s[1..], t[1..], n - 1);
    }
  }

  /** Strictly increasing. */
  predicate Increasing(keys: seq<string>) { forall i, k | 0 <= i < k < |keys| :: Less(keys[i], keys[k]) }

  ghost predicate Lists(keys: seq<string>, s: set<string>) { forall k :: k in keys <==> k in s }

  /** A set has one increasing list. */
  lemma {:induction false} OneList(a: seq<string>, b: seq<string>, s: set<string>)
    requires Increasing(a) && Increasing(b) && Lists(a, s) && Lists(b, s)
    ensures a == b
    decreases |a|
  {
    assert |a| > 0 ==> a[0] in b;
    assert |b| > 0 ==> b[0] in a;
    if a != [] && b != [] {
      FirstIsLeast(a, b[0]);
      FirstIsLeast(b, a[0]);
      LessTotal(a[0], b[0]);
      RestLists(a, s);
      RestLists(b, s);
      OneList(a[1..], b[1..], s - {a[0]});
      assert a == [a[0]] + a[1..] && b == [b[0]] + b[1..];
    }
  }

  lemma {:induction false} FirstIsLeast(keys: seq<string>, k: string)
    requires Increasing(keys) && k in keys
    ensures k == keys[0] || Less(keys[0], k)
  {
  }

  lemma RestLists(keys: seq<string>, s: set<string>)
    requires Increasing(keys) && keys != [] && Lists(keys, s)
    ensures Increasing(keys[1..]) && Lists(keys[1..], s - {keys[0]})
  {
    forall k ensures k in keys[1..] <==> k in s - {keys[0]} {
      LessTotal(keys[0], keys[0]);
      assert k in keys <==> k == keys[0] || k in keys[1..];
    }
  }

  method SortStrings(keys: seq<string>) returns (sorted: seq<string>)
    requires forall i, k | 0 <= i < k < |keys| :: keys[i] != keys[k]
    ensures Increasing(sorted) && forall k :: k in sorted <==> k in keys
  {
    sorted := [];
    for i := 0 to |keys|
      invariant Increasing(sorted) && forall k :: k in sorted <==> k in keys[..i]
    {
      var k := keys[i];
      var at := 0;
      assert k !in sorted;
      while at < |sorted| && Less(sorted[at], k)
        invariant at <= |sorted| && forall x | 0 <= x < at :: Less(sorted[x], k)
      {
        at := at + 1;
      }
      if at < |sorted| {
        LessTotal(sorted[at], k);
        forall x | at < x < |sorted| ensures Less(k, sorted[x]) { LessTransitive(k, sorted[at], sorted[x]); }
      }
      ghost var was := sorted;
      sorted := sorted[..at] + [k] + sorted[at..];
      assert forall x :: x in sorted <==> x == k || x in was;
      assert keys[..i + 1] == keys[..i] + [k];
    }
    assert keys[..|keys|] == keys;
  }

  // ----- the encoding -----

  /** A text with its length before it. */
  function Prefixed(s: string): string { Decimal(|s|) + ":" + s }

  function EncodeAll(m: map<string, string>, keys: seq<string>): string
    requires forall i | 0 <= i < |keys| :: keys[i] in m
  {
    if keys == [] then "" else Prefixed(keys[0]) + (Prefixed(m[keys[0]]) + EncodeAll(m, keys[1..]))
  }

  /** The encoding of a map of components: by its keys in increasing order. */
  ghost predicate Encodes(m: map<string, string>, s: string) {
    exists keys :: EncodesIn(m, keys, s)
  }

  ghost predicate EncodesIn(m: map<string, string>, keys: seq<string>, s: string) {
    Increasing(keys) && Lists(keys, m.Keys) && (forall i | 0 <= i < |keys| :: keys[i] in m) && s == EncodeAll(m, keys)
  }

  lemma Assoc(a: string, b: string, c: string, d: string)
    ensures a + (b + (c + d)) == (a + b + c) + d
  {
  }

  method WriteComponents(components: map<string, string>, keys: seq<string>) returns (sb: string)
    requires forall i | 0 <= i < |keys| :: keys[i] in components
    ensures sb == EncodeAll(components, keys)
  {
    sb := "";
    assert keys[0..] == keys && "" + EncodeAll(components, keys) == EncodeAll(components, keys);
    for i := 0 to |keys|
      invariant sb + EncodeAll(components, keys[i..]) == EncodeAll(components, keys)
    {
      var key := keys[i];
      assert keys[i..][0] == key && keys[i..][1..] == keys[i + 1..];
      Assoc(sb, Prefixed(key), Prefixed(components[key]), EncodeAll(components, keys[i + 1..]));
      sb := sb + Prefixed(key) + Prefixed(components[key]);
    }
    assert sb + EncodeAll(components, keys[|keys|..]) == sb;
  }

  /** `CacheExtKeyGenerator`; `digest` is the hash in its text form. */
  method CacheExtKeyGenerator(components: map<string, string>, digest: string -> string)
    returns (r: string, ghost text: string)
    ensures components == map[] ==> r == ""
    ensures components != map[] ==> Encodes(components, text) && r == ToLower(digest(text))
    ensures !HasUpper(r)
  {
    text := "";
    if |components| == 0 { return "", ""; }
    var keys := MapOrder.Range(components);
    var sorted := SortStrings(keys);
    assert Lists(sorted, components.Keys);
    assert forall i | 0 <= i < |sorted| :: sorted[i] in sorted;
    var sb := WriteComponents(components, sorted);
    assert EncodesIn(components, sorted, sb);
    LowerFixed(digest(sb));
    r, text := ToLower(digest(sb)), sb;
  }

  // ----- reading it back -----

  /** The decimal number before the first colon, and what follows it. */
  function ReadLength(s: string, sofar: nat): (r: Option<(nat, string)>)
    ensures r.Some? ==> |r.value.1| < |s|
  {
    if s == "" then None
    else if s[0] == ':' then Some((sofar, s[1..]))
    else if IsDigit(s[0]) then ReadLength(s[1..], 10 * sofar + (s[0] as int - '0' as int))
    else None
  }

  /** A text with its length before it, and what follows it. */
  function ReadPrefixed(s: string): (r: Option<(string, string)>)
    ensures r.Some? ==> |r.value.1| < |s|
  {
    var n := ReadLength(s, 0);
    if n.None? || n.value.0 > |n.value.1| then None
    else Some((n.value.1[..n.value.0], n.value.1[n.value.0..]))
  }

  function ReadMap(s: string): Option<map<string, string>>
    decreases |s|
  {
    if s == "" then Some(map[])
    else
      var key := ReadPrefixed(s);
      if key.None? then None
      else
        var val := ReadPrefixed(key.value.1);
        if val.None? then None
        else
          var rest := ReadMap(val.value.1);
          if rest.None? then None else Some(rest.value[key.value.0 := val.value.0])
  }

  lemma {:induction false} ReadDecimal(n: nat, t: string)
    ensures ReadLength(Decimal(n) + t, 0) == ReadLength(t, n)
  {
    var d := [('0' as int + n % 10) as char];
    assert (d + t)[0] == d[0] && (d + t)[1..] == t;
    if n >= 10 {
      ReadDecimal(n / 10, d + t);
      assert Decimal(n) + t == Decimal(n / 10) + (d + t);
    }
  }

  lemma ReadBack(s: string, rest: string)
    ensures ReadPrefixed(Prefixed(s) + rest) == Some((s, rest))
  {
    assert Prefixed(s) + rest == Decimal(|s|) + (":" + (s + rest));
    ReadDecimal(|s|, ":" + (s + rest));
    assert (":" + (s + rest))[1..] == s + rest;
    assert (s + rest)[..|s|] == s && (s + rest)[|s|..] == rest;
  }

  lemma {:induction false} ReadEncoded(m: map<string, string>, keys: seq<string>)
    requires (forall i | 0 <= i < |keys| :: keys[i] in m) && forall i, k | 0 <= i < k < |keys| :: keys[i] != keys[k]
    ensures ReadMap(EncodeAll(m, keys)) == Some(map k | k in m && k in keys :: m[k])
    decreases |keys|
  {
    if keys != [] {
      var k, more := keys[0], EncodeAll(m, keys[1..]);
      assert Prefixed(k) != "";
      hide Prefixed, ReadPrefixed;
      ReadBack(k, Prefixed(m[k]) + more);
      ReadBack(m[k], more);
      ReadEncoded(m, keys[1..]);
      assert EncodeAll(m, keys) == Prefixed(k) + (Prefixed(m[k]) + more);
      assert keys == [k] + keys[1..];
      assert (map x | x in m && x in keys :: m[x]) == (map x | x in m && x in keys[1..] :: m[x])[k := m[k]];
    }
  }

  /** The encoding does not depend on the order in which the map is enumerated, and can be read back; so
      different maps of components are told apart before they are hashed. */
  lemma {:induction false} EncodingExact(m1: map<string, string>, s1: string, m2: map<string, string>, s2: string)
    requires Encodes(m1, s1) && Encodes(m2, s2)
    ensures ReadMap(s1) == Some(m1)
    ensures s1 == s2 <==> m1 == m2
  {
    EncodingReadable(m1, s1);
    EncodingReadable(m2, s2);
    if m1 == m2 {
      var k1 :| EncodesIn(m1, k1, s1);
      var k2 :| EncodesIn(m2, k2, s2);
      OneList(k1, k2, m1.Keys);
    }
  }

  lemma {:induction false} EncodingReadable(m: map<string, string>, s: string)
    requires Encodes(m, s)
    ensures ReadMap(s) == Some(m)
  {
    var keys :| EncodesIn(m, keys, s);
    forall i, k | 0 <= i < k < |keys| ensures keys[i] != keys[k] { LessTotal(keys[i], keys[i]); }
    ReadEncoded(m, keys);
    assert (map k | k in m && k in keys :: m[k]) == m;
  }
}
