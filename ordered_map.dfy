/**
 * Python dictionaries keep insertion order, and the pipeline's results depend
 * on that order.  A dictionary is modelled as a list of key/value pairs with
 * distinct keys; assigning to an existing key keeps its position.
 */
module OrderedMap {
  import opened Wrappers

  type Dict<K, V> = seq<(K, V)>

  function Keys<K(==,!new), V>(m: Dict<K, V>): (ks: seq<K>)
    ensures |ks| == |m| && forall i :: 0 <= i < |m| ==> ks[i] == m[i].0
  {
    if m == [] then [] else [m[0].0] + Keys(m[1..])
  }

  predicate HasKey<K(==,!new), V>(m: Dict<K, V>, k: K) {
    k in Keys(m)
  }

  predicate UniqueKeys<K(==,!new), V>(m: Dict<K, V>) {
    forall i, j :: 0 <= i < j < |m| ==> m[i].0 != m[j].0
  }

  /** `m.get(k)`: the value stored under `k`, if any. */
  function Get<K(==,!new), V>(m: Dict<K, V>, k: K): (r: Option<V>)
    ensures r.Some? <==> HasKey(m, k)
    ensures r.Some? ==> exists i :: 0 <= i < |m| && m[i] == (k, r.value)
  {
    if m == [] then None
    else if m[0].0 == k then Some(m[0].1)
    else Get(m[1..], k)
  }

  /** `m.get(k, d)` */
  function GetOr<K(==,!new), V>(m: Dict<K, V>, k: K, d: V): V {
    Get(m, k).GetOr(d)
  }

  /** `m[k] = v`: replace in place, or append a new entry at the end. */
  function Put<K(==,!new), V>(m: Dict<K, V>, k: K, v: V): (r: Dict<K, V>)
    ensures Keys(r) == if HasKey(m, k) then Keys(m) else Keys(m) + [k]
  {
    if m == [] then [(k, v)]
    else if m[0].0 == k then [(k, v)] + m[1..]
    else [m[0]] + Put(m[1..], k, v)
  }

  /** After `m[k] = v`, `k` holds `v` and every other key is unchanged. */
  lemma {:induction false} PutGet<K(!new), V>(m: Dict<K, V>, k: K, v: V, j: K)
    ensures Get(Put(m, k, v), j) == if j == k then Some(v) else Get(m, j)
  {
    if m != [] && m[0].0 != k {
      PutGet(m[1..], k, v, j);
    }
  }

  /** Assigning the same key twice is the second assignment alone, in the first one's place. */
  lemma {:induction false} PutTwice<K(!new), V>(m: Dict<K, V>, k: K, v: V, w: V)
    ensures Put(Put(m, k, v), k, w) == Put(m, k, w)
  {
    if m != [] && m[0].0 != k {
      PutTwice(m[1..], k, v, w);
    }
  }

  /** Assignment never duplicates a key. */
  lemma {:induction false} PutUnique<K(!new), V>(m: Dict<K, V>, k: K, v: V)
    requires UniqueKeys(m)
    ensures UniqueKeys(Put(m, k, v))
  {
    var r := Put(m, k, v);
    var ks := Keys(r);
    forall i, j | 0 <= i < j < |r| ensures r[i].0 != r[j].0 {
      assert ks[i] == r[i].0 && ks[j] == r[j].0;
      if !HasKey(m, k) && j == |m| {
        assert Keys(m)[i] == m[i].0;
      } else {
        assert Keys(m)[i] == m[i].0 && Keys(m)[j] == m[j].0;
      }
    }
  }

  /** `del m[k]` when present; otherwise `m` unchanged. */
  function Remove<K(==,!new), V>(m: Dict<K, V>, k: K): (r: Dict<K, V>)
    ensures |r| <= |m|
    ensures forall i :: 0 <= i < |r| ==> r[i].0 != k && r[i] in m
  {
    if m == [] then []
    else if m[0].0 == k then Remove(m[1..], k)
    else [m[0]] + Remove(m[1..], k)
  }

  /** After `del m[k]`, `k` is gone and every other key is unchanged. */
  lemma {:induction false} RemoveGet<K(!new), V>(m: Dict<K, V>, k: K, j: K)
    ensures Get(Remove(m, k), j) == if j == k then None else Get(m, j)
  {
    if m != [] {
      RemoveGet(m[1..], k, j);
    }
  }

  /** `m.update(other)`: every entry of `other`, in order, assigned into `m`. */
  function Update<K(==,!new), V>(m: Dict<K, V>, other: Dict<K, V>): Dict<K, V>
    decreases |other|
  {
    if other == [] then m else Update(Put(m, other[0].0, other[0].1), other[1..])
  }

  /** After `m.update(other)`, a key of `other` holds `other`'s value and every other key keeps `m`'s. */
  lemma {:induction false} UpdateGet<K(!new), V>(m: Dict<K, V>, other: Dict<K, V>, k: K)
    requires UniqueKeys(other)
    ensures Get(Update(m, other), k) == if HasKey(other, k) then Get(other, k) else Get(m, k)
    decreases |other|
  {
    if other != [] {
      var rest := other[1..];
      assert UniqueKeys(rest) by {
        forall i, j | 0 <= i < j < |rest| ensures rest[i].0 != rest[j].0 { assert rest[i] == other[i + 1] && rest[j] == other[j + 1]; }
      }
      UpdateGet(Put(m, other[0].0, other[0].1), rest, k);
      PutGet(m, other[0].0, other[0].1, k);
      if k == other[0].0 {
        assert !HasKey(rest, k) by {
          forall i | 0 <= i < |rest| ensures Keys(rest)[i] != k { assert rest[i] == other[i + 1]; }
        }
      } else {
        assert HasKey(other, k) <==> HasKey(rest, k) by {
          assert Keys(other) == [other[0].0] + Keys(rest);
        }
      }
    }
  }

  /** The entries of `m` whose key satisfies `keep`, in order. */
  function FilterKeys<K(==,!new), V>(m: Dict<K, V>, keep: K -> bool): (r: Dict<K, V>)
    ensures forall i :: 0 <= i < |r| ==> keep(r[i].0)
    ensures forall k :: keep(k) ==> Get(r, k) == Get(m, k)
    ensures forall k :: !keep(k) ==> !HasKey(r, k)
    ensures |r| <= |m|
  {
    if m == [] then []
    else if keep(m[0].0) then [m[0]] + FilterKeys(m[1..], keep)
    else FilterKeys(m[1..], keep)
  }

  /** When no key satisfies `keep`, nothing is kept. */
  lemma {:induction false} FilterKeysNone<K(!new), V>(m: Dict<K, V>, keep: K -> bool)
    requires forall i :: 0 <= i < |m| ==> !keep(m[i].0)
    ensures FilterKeys(m, keep) == []
  {
    if m != [] {
      assert forall i :: 0 <= i < |m| - 1 ==> m[1..][i] == m[i + 1];
      FilterKeysNone(m[1..], keep);
    }
  }

  /** Assigning a key the map does not hold appends the entry. */
  lemma {:induction false} PutFresh<K(!new), V>(m: Dict<K, V>, k: K, v: V)
    requires !HasKey(m, k)
    ensures Put(m, k, v) == m + [(k, v)]
  {
    if m != [] {
      assert Keys(m) == [m[0].0] + Keys(m[1..]);
      PutFresh(m[1..], k, v);
      assert [m[0]] + (m[1..] + [(k, v)]) == m + [(k, v)];
    }
  }

  /** Updating with `a + b` is updating with `a`, then with `b`. */
  lemma {:induction false} UpdateAppend<K(!new), V>(m: Dict<K, V>, a: Dict<K, V>, b: Dict<K, V>)
    ensures Update(m, a + b) == Update(Update(m, a), b)
    decreases |a|
  {
    if a == [] {
      assert a + b == b;
    } else {
      assert (a + b)[0] == a[0] && (a + b)[1..] == a[1..] + b;
      UpdateAppend(Put(m, a[0].0, a[0].1), a[1..], b);
    }
  }

  /** Updating with entries of distinct keys the map does not hold appends them in order. */
  lemma {:induction false} UpdateFresh<K(!new), V>(m: Dict<K, V>, other: Dict<K, V>)
    requires UniqueKeys(other)
    requires forall i :: 0 <= i < |other| ==> !HasKey(m, other[i].0)
    ensures Update(m, other) == m + other
    decreases |other|
  {
    if other != [] {
      var m' := m + [other[0]];
      var rest := other[1..];
      FreshStep(m, other);
      assert Update(m, other) == Update(Put(m, other[0].0, other[0].1), rest);
      UpdateFresh(m', rest);
      assert other == [other[0]] + rest;
      AppendAssoc(m, [other[0]], rest);
    }
  }

  lemma AppendAssoc<T>(a: seq<T>, b: seq<T>, c: seq<T>)
    ensures (a + b) + c == a + (b + c)
  {
  }

  /** After the first fresh entry is appended, the remaining entries are still fresh and distinct. */
  lemma FreshStep<K(!new), V>(m: Dict<K, V>, other: Dict<K, V>)
    requires other != [] && UniqueKeys(other)
    requires forall i :: 0 <= i < |other| ==> !HasKey(m, other[i].0)
    ensures Put(m, other[0].0, other[0].1) == m + [other[0]]
    ensures UniqueKeys(other[1..])
    ensures forall i :: 0 <= i < |other[1..]| ==> !HasKey(m + [other[0]], other[1..][i].0)
  {
    var k := other[0].0;
    var m' := m + [other[0]];
    var rest := other[1..];
    PutFresh(m, k, other[0].1);
    assert Keys(m') == Keys(m) + [k];
    forall i, j | 0 <= i < j < |rest| ensures rest[i].0 != rest[j].0 {
      assert rest[i] == other[i + 1] && rest[j] == other[j + 1];
    }
    forall i | 0 <= i < |rest| ensures !HasKey(m', rest[i].0) {
      var x := other[i + 1].0;
      assert rest[i].0 == x;
      assert !HasKey(m, x) && x != k;
      assert x !in Keys(m) + [k];
    }
  }

  lemma KeysAppend<K(!new), V>(a: Dict<K, V>, b: Dict<K, V>)
    ensures Keys(a + b) == Keys(a) + Keys(b)
  {
    assert forall i :: 0 <= i < |a + b| ==> Keys(a + b)[i] == (Keys(a) + Keys(b))[i];
  }

  /** Cutting a map anywhere splits its keys between the two parts. */
  lemma KeysSplit<K(!new), V>(m: Dict<K, V>, cut: nat)
    requires cut <= |m|
    ensures Keys(m) == Keys(m[..cut]) + Keys(m[cut..])
  {
    assert m == m[..cut] + m[cut..];
    KeysAppend(m[..cut], m[cut..]);
  }

  /** In a map with distinct keys, the entry stored under a key is the one `get` returns. */
  lemma {:induction false} GetMember<K(!new), V>(m: Dict<K, V>, i: nat)
    requires UniqueKeys(m) && i < |m|
    ensures Get(m, m[i].0) == Some(m[i].1)
  {
    if i > 0 {
      assert m[0].0 != m[i].0;
      assert m[1..][i - 1] == m[i];
      assert UniqueKeys(m[1..]) by {
        forall a, b | 0 <= a < b < |m[1..]| ensures m[1..][a].0 != m[1..][b].0 {
          assert m[1..][a] == m[a + 1] && m[1..][b] == m[b + 1];
        }
      }
      GetMember(m[1..], i - 1);
    }
  }

  /** `get` finds the first entry holding the key. */
  lemma {:induction false} GetFirst<K(!new), V>(m: Dict<K, V>, k: K, i: nat)
    requires i < |m| && m[i].0 == k && forall j :: 0 <= j < i ==> m[j].0 != k
    ensures Get(m, k) == Some(m[i].1)
  {
    if i > 0 {
      assert m[1..][i - 1] == m[i];
      GetFirst(m[1..], k, i - 1);
    }
  }

  /** Reading a two-entry literal. */
  lemma GetPair<K(!new), V>(k1: K, v1: V, k2: K, v2: V)
    requires k1 != k2
    ensures Get([(k1, v1), (k2, v2)], k1) == Some(v1) && Get([(k1, v1), (k2, v2)], k2) == Some(v2)
  {
    GetFirst([(k1, v1), (k2, v2)], k2, 1);
  }

  /** Reading a three-entry literal. */
  lemma GetTriple<K(!new), V>(k1: K, v1: V, k2: K, v2: V, k3: K, v3: V)
    requires k1 != k2 && k1 != k3 && k2 != k3
    ensures var m := [(k1, v1), (k2, v2), (k3, v3)];
            Get(m, k1) == Some(v1) && Get(m, k2) == Some(v2) && Get(m, k3) == Some(v3)
  {
    GetFirst([(k1, v1), (k2, v2), (k3, v3)], k2, 1);
    GetFirst([(k1, v1), (k2, v2), (k3, v3)], k3, 2);
  }

  /** Reading a four-entry literal. */
  lemma GetQuad<K(!new), V>(k1: K, v1: V, k2: K, v2: V, k3: K, v3: V, k4: K, v4: V)
    requires k1 != k2 && k1 != k3 && k1 != k4 && k2 != k3 && k2 != k4 && k3 != k4
    ensures var m := [(k1, v1), (k2, v2), (k3, v3), (k4, v4)];
            Get(m, k1) == Some(v1) && Get(m, k2) == Some(v2) && Get(m, k3) == Some(v3) && Get(m, k4) == Some(v4)
  {
    var m := [(k1, v1), (k2, v2), (k3, v3), (k4, v4)];
    GetFirst(m, k2, 1);
    GetFirst(m, k3, 2);
    GetFirst(m, k4, 3);
  }

  /** A key held by a map with distinct keys is absent from the entries before it. */
  lemma UniqueNotInPrefix<K(!new), V>(m: Dict<K, V>, i: nat)
    requires UniqueKeys(m) && i < |m|
    ensures !HasKey(m[..i], m[i].0)
  {
    forall j | 0 <= j < i ensures Keys(m[..i])[j] != m[i].0 {
      assert Keys(m[..i])[j] == m[j].0;
    }
  }

  /**
   * Building a map entry by entry alongside `m`, with the same keys so far:
   * assigning the next key of `m` appends it.
   */
  lemma PutNext<K(!new), V, W>(m: Dict<K, V>, i: nat, acc: Dict<K, W>, v: W)
    requires UniqueKeys(m) && i < |m| && Keys(acc) == Keys(m[..i])
    ensures Put(acc, m[i].0, v) == acc + [(m[i].0, v)]
    ensures Keys(acc + [(m[i].0, v)]) == Keys(m[..i + 1])
  {
    UniqueNotInPrefix(m, i);
    PutFresh(acc, m[i].0, v);
    KeysAppend(acc, [(m[i].0, v)]);
    KeysAppend(m[..i], [m[i]]);
    assert m[..i + 1] == m[..i] + [m[i]];
  }

  /** `m.update(d)` for each `d` of `others` in turn. */
  function UpdateAll<K(==,!new), V>(m: Dict<K, V>, others: seq<Dict<K, V>>): Dict<K, V> {
    if others == [] then m else Update(UpdateAll(m, others[..|others| - 1]), others[|others| - 1])
  }

  /** The value under `k` in the last of `others` that holds `k`. */
  function LastHolding<K(==,!new), V>(others: seq<Dict<K, V>>, k: K): Option<V> {
    if others == [] then None
    else if HasKey(others[|others| - 1], k) then Get(others[|others| - 1], k)
    else LastHolding(others[..|others| - 1], k)
  }

  /** After the updates, a key holds its value from the last update holding it, or else its original value. */
  lemma {:induction false} UpdateAllGet<K(!new), V>(m: Dict<K, V>, others: seq<Dict<K, V>>, k: K)
    requires forall i :: 0 <= i < |others| ==> UniqueKeys(others[i])
    ensures Get(UpdateAll(m, others), k) == if LastHolding(others, k).Some? then LastHolding(others, k) else Get(m, k)
  {
    if others != [] {
      var n := |others| - 1;
      var init := others[..n];
      assert forall i :: 0 <= i < n ==> init[i] == others[i];
      UpdateAllGet(m, init, k);
      UpdateGet(UpdateAll(m, init), others[n], k);
    }
  }

  /** Dictionary `i` of `others` maps `k` to `v`, and no later one holds `k`. */
  ghost predicate LastWith<K(!new), V>(others: seq<Dict<K, V>>, k: K, v: V, i: int) {
    0 <= i < |others| && Get(others[i], k) == Some(v) && forall j :: i < j < |others| ==> !HasKey(others[j], k)
  }

  /** `LastHolding` finds the value of the last dictionary holding the key, and only that. */
  lemma LastHoldingSpec<K(!new), V>(others: seq<Dict<K, V>>, k: K, v: V)
    ensures LastHolding(others, k) == Some(v) <==> exists i :: LastWith(others, k, v, i)
  {
    if LastHolding(others, k) == Some(v) {
      var i := LastHoldingFound(others, k, v);
    }
    if exists i :: LastWith(others, k, v, i) {
      var i :| LastWith(others, k, v, i);
      LastHoldingOfLast(others, k, v, i);
    }
  }

  lemma {:induction false} LastHoldingFound<K(!new), V>(others: seq<Dict<K, V>>, k: K, v: V) returns (i: int)
    requires LastHolding(others, k) == Some(v)
    ensures LastWith(others, k, v, i)
  {
    var n := |others| - 1;
    if HasKey(others[n], k) {
      i := n;
    } else {
      var init := others[..n];
      i := LastHoldingFound(init, k, v);
      assert init[i] == others[i];
      forall j | i < j < |others| ensures !HasKey(others[j], k) {
        if j < n { assert init[j] == others[j]; }
      }
    }
  }

  lemma {:induction false} LastHoldingOfLast<K(!new), V>(others: seq<Dict<K, V>>, k: K, v: V, i: int)
    requires LastWith(others, k, v, i)
    ensures LastHolding(others, k) == Some(v)
  {
    var n := |others| - 1;
    if i < n {
      var init := others[..n];
      assert !HasKey(others[n], k);
      assert init[i] == others[i];
      forall j | i < j < n ensures !HasKey(init[j], k) { assert init[j] == others[j]; }
      LastHoldingOfLast(init, k, v, i);
    }
  }
}
