/** Lazy migration of v1.0 cache keys: an entry under a key with uppercase letters moves to the
    lowercase key the first time it is read, unless a newer entry already sits there. */
module Upgrade {
  import opened Wrappers
  import opened Strings
  import MapOrder

  /** What the upgrade of key `k` returns; `None` is Go's zero value. */
  function UpgradeValue<V>(m: map<string, V>, k: string): Option<V> {
    var l := ToLower(k);
    if k in m && l !in m then Some(m[k])
    else if l in m then Some(m[l])
    else None
  }

  /** What it leaves behind. */
  function UpgradeMap<V>(m: map<string, V>, k: string): map<string, V> {
    if k !in m then m
    else (if ToLower(k) in m then m else m[ToLower(k) := m[k]]) - {k}
  }

  /** Reading the entry under `k`, with the upgrade if the key asks for one. */
  function Touch<V>(m: map<string, V>, k: string): (Option<V>, map<string, V>)
    requires k in m
  {
    if HasUpper(k) then (UpgradeValue(m, k), UpgradeMap(m, k)) else (Some(m[k]), m)
  }

  /** The scan that every reader does: the first matching entry in map order, upgraded if need be. */
  method FindFirst<V>(m: map<string, V>, matches: (string, V) -> bool)
    returns (r: Option<V>, m': map<string, V>, ghost hit: string)
    ensures r.None? ==> m' == m && forall k | k in m :: !matches(k, m[k])
    ensures r.Some? ==> hit in m && matches(hit, m[hit]) && (r, m') == Touch(m, hit)
  {
    var keys := MapOrder.Range(m);
    for i := 0 to |keys|
      invariant forall x | 0 <= x < i :: !matches(keys[x], m[keys[x]])
    {
      var k := keys[i];
      if matches(k, m[k]) {
        hit := k;
        if HasUpper(k) {
          // under the exclusive lock
          var l := ToLower(k);
          LowerFixed(k);
          var v := m[k];
          m' := m;
          if l in m' { v := m'[l]; } else { m' := m'[l := v]; }
          m' := m' - {k};
          return Some(v), m', hit;
        }
        return Some(m[k]), m, hit;
      }
    }
    r, m', hit := None, m, "";
  }

  // ----- what the cache looks like when case is ignored -----

  /** Looking up the lowercase key `l` may find `v`: under `l` itself, or else under an old variant. */
  ghost predicate Sees<V>(m: map<string, V>, l: string, v: V) {
    if l in m then m[l] == v else exists k :: k in m && ToLower(k) == l && m[k] == v
  }

  /** Each lowercase key has at most one old variant. */
  ghost predicate SingleVariants<V>(m: map<string, V>) {
    forall k1, k2 :: k1 in m && k2 in m && HasUpper(k1) && HasUpper(k2) && ToLower(k1) == ToLower(k2) ==> k1 == k2
  }

  /** An upgrade never shows a value that was not there, loses no lowercase key, and, with single
      variants, changes nothing that can be seen. */
  lemma UpgradeKeepsView<V>(m: map<string, V>, k: string, l: string, v: V)
    requires HasUpper(k) && !HasUpper(l)
    ensures Sees(UpgradeMap(m, k), l, v) ==> Sees(m, l, v)
    ensures (exists w :: Sees(m, l, w)) <==> (exists w :: Sees(UpgradeMap(m, k), l, w))
    ensures SingleVariants(m) ==> SingleVariants(UpgradeMap(m, k)) && (Sees(UpgradeMap(m, k), l, v) <==> Sees(m, l, v))
  {
    var m' := UpgradeMap(m, k);
    LowerFixed(k);
    LowerFixed(l);
    hide ToLower;
    if w :| Sees(m, l, w) {
      if l !in m' {
        var o :| o in m && ToLower(o) == l && m[o] == w;
        assert o != k;
        assert o in m' && Sees(m', l, w);
      } else {
        assert Sees(m', l, m'[l]);
      }
    }
    if w :| Sees(m', l, w) {
      SeesBack(m, k, l, w);
    }
    if Sees(m', l, v) {
      SeesBack(m, k, l, v);
    }
    if SingleVariants(m) && Sees(m, l, v) && !(l in m) {
      var o :| o in m && ToLower(o) == l && m[o] == v;
      if o == k {
        assert m'[l] == v;
      } else if ToLower(k) == l && k in m {
        LowerFixed(o);
      } else {
        assert o in m' && l !in m';
      }
    }
  }

  lemma SeesBack<V>(m: map<string, V>, k: string, l: string, v: V)
    requires HasUpper(k) && !HasUpper(l) && Sees(UpgradeMap(m, k), l, v)
    ensures Sees(m, l, v)
  {
    var m' := UpgradeMap(m, k);
    LowerFixed(k);
    if l !in m {
      if l in m' {
        assert k in m && ToLower(k) == l && m[k] == v;
      } else {
        var o :| o in m' && ToLower(o) == l && m'[o] == v;
        assert o in m && m[o] == v;
      }
    }
  }

  // ----- any order of upgrades -----

  function UpgradeAll<V>(m: map<string, V>, keys: seq<string>): map<string, V>
    decreases keys
  {
    if keys == [] then m else UpgradeAll(UpgradeMap(m, keys[0]), keys[1..])
  }

  /** Some key of `ks` moves to `l`. */
  ghost predicate Moves<V>(m: map<string, V>, ks: set<string>, l: string) {
    exists k :: k in ks && k in m && ToLower(k) == l
  }

  ghost function Variant<V>(m: map<string, V>, ks: set<string>, l: string): (k: string)
    requires Moves(m, ks, l)
    ensures k in ks && k in m && ToLower(k) == l
  {
    var k :| k in ks && k in m && ToLower(k) == l;
    k
  }

  function Lookup<V>(m: map<string, V>, l: string): Option<V> { if l in m then Some(m[l]) else None }

  /** What lies under `l` once all the keys of `ks` have been upgraded, whatever the order. */
  ghost function After<V>(m: map<string, V>, ks: set<string>, l: string): Option<V> {
    if l in m && l !in ks then Some(m[l])
    else if Moves(m, ks, l) then Some(m[Variant(m, ks, l)])
    else None
  }

  lemma {:induction false} UpgradeAllIs<V>(m: map<string, V>, keys: seq<string>, l: string)
    requires SingleVariants(m) && forall k | k in keys :: HasUpper(k)
    ensures Lookup(UpgradeAll(m, keys), l) == After(m, (set k | k in keys), l)
    decreases keys
  {
    if keys != [] {
      var k, more := keys[0], keys[1..];
      assert keys == [k] + more && (set x | x in keys) == {k} + set x | x in more;
      assert HasUpper(k) && forall x | x in more :: HasUpper(x);
      hide HasUpper, ToLower, UpgradeMap, SingleVariants;
      SingleVariantsKept(m, k);
      UpgradeAllIs(UpgradeMap(m, k), more, l);
      AfterStep(m, k, (set x | x in more), l);
    }
  }

  /** Two upgrade orders of the same old keys reach the same cache. */
  lemma {:induction false} UpgradesConfluent<V>(m: map<string, V>, a: seq<string>, b: seq<string>)
    requires SingleVariants(m) && (forall k | k in a :: HasUpper(k)) && (forall k | k in b :: HasUpper(k))
    requires (set k | k in a) == (set k | k in b)
    ensures UpgradeAll(m, a) == UpgradeAll(m, b)
  {
    var u, w := UpgradeAll(m, a), UpgradeAll(m, b);
    forall l ensures Lookup(u, l) == Lookup(w, l) {
      UpgradeAllIs(m, a, l);
      UpgradeAllIs(m, b, l);
    }
    assert forall l :: l in u <==> Lookup(u, l).Some?;
    assert forall l :: l in w <==> Lookup(w, l).Some?;
    assert u.Keys == w.Keys;
    assert forall l | l in u :: Lookup(u, l) == Some(u[l]) && Lookup(w, l) == Some(w[l]);
  }

  lemma SingleVariantsKept<V>(m: map<string, V>, k: string)
    requires SingleVariants(m) && HasUpper(k)
    ensures SingleVariants(UpgradeMap(m, k))
  {
    LowerFixed(k);
  }

  lemma AfterStep<V>(m: map<string, V>, k: string, ks: set<string>, l: string)
    requires SingleVariants(m) && HasUpper(k) && forall x | x in ks :: HasUpper(x)
    ensures After(UpgradeMap(m, k), ks, l) == After(m, {k} + ks, l)
  {
    LowerFixed(k);
    forall x | x in ks ensures x != ToLower(k) && ToLower(x) !in ks && ToLower(x) != k {
      LowerFixed(x);
    }
    hide ToLower, HasUpper;
    var m' := UpgradeMap(m, k);
    if k !in m {
      assert Moves(m, {k} + ks, l) <==> Moves(m, ks, l);
    } else if l == ToLower(k) {
      assert Moves(m, {k} + ks, l) && l in m' && l !in ks;
    } else {
      assert Moves(m, {k} + ks, l) ==> Variant(m, {k} + ks, l) in m';
      assert Moves(m, {k} + ks, l) <==> Moves(m', ks, l);
    }
  }

  // ----- a reader between its two locks -----

  /** What other callers may do to the map while a reader has dropped the read lock and waits for the
      write lock: write under a new (lowercase) key, or upgrade some key themselves. */
  datatype Step<V> = Write(key: string, v: V) | Upgrade(key: string)

  function Apply<V>(m: map<string, V>, st: Step<V>): map<string, V> {
    match st
    case Write(key, v) => m[key := v]
    case Upgrade(key) => UpgradeMap(m, key)
  }

  function Run<V>(m: map<string, V>, steps: seq<Step<V>>): map<string, V>
    decreases steps
  {
    if steps == [] then m else Run(Apply(m, steps[0]), steps[1..])
  }

  /** The reader that scanned `k` never gets a zero value from its upgrade, whatever ran in between:
      it gets the entry it scanned, one that was written under the same lowercase key, or the one
      that already sat there. */
  lemma {:induction false} ReaderNeverZero<V>(m: map<string, V>, k: string, steps: seq<Step<V>>)
    requires HasUpper(k) && (k in m || ToLower(k) in m)
    requires forall st | st in steps :: if st.Write? then !HasUpper(st.key) else HasUpper(st.key)
    ensures var r := UpgradeValue(Run(m, steps), k);
      && r.Some?
      && (Origin(m, k, r.value) ||
          exists st | st in steps :: st.Write? && st.key == ToLower(k) && st.v == r.value)
    decreases steps
  {
    if steps != [] {
      var st, m' := steps[0], Apply(m, steps[0]);
      assert st in steps && forall x | x in steps[1..] :: x in steps;
      LowerFixed(k);
      LowerFixed(st.key);
      hide ToLower, HasUpper;
      ReaderNeverZero(m', k, steps[1..]);
      var v := UpgradeValue(Run(m', steps[1..]), k).value;
      if Origin(m', k, v) {
        OriginBack(m, k, st, v);
      }
    }
  }

  lemma {:induction false} OriginBack<V>(m: map<string, V>, k: string, st: Step<V>, v: V)
    requires Origin(Apply(m, st), k, v)
    ensures Origin(m, k, v) || (st.Write? && ToLower(st.key) == ToLower(k) && st.v == v)
  {
    LowerFixed(st.key);
    var x :| x in Apply(m, st) && ToLower(x) == ToLower(k) && Apply(m, st)[x] == v;
  }

  /** `v` sits in `m` under the lowercase form of `k` or under one of its old variants. */
  ghost predicate Origin<V>(m: map<string, V>, k: string, v: V) {
    exists x :: x in m && ToLower(x) == ToLower(k) && m[x] == v
  }
}
