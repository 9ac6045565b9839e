// Counting occurrences into an insertion-ordered dictionary: the
// `counts[k] = counts.get(k, 0) + 1` idiom that `get_issue_counts_by_rule`
// applies to the rule of every issue.

module Counting {
  import opened Wrappers
  import opened OrderedMap

  /** The values of a dictionary, added up. */
  function SumValues<K>(d: Dict<K, int>): int {
    if d == [] then 0 else d[0].1 + SumValues(d[1..])
  }

  /** `rule_counts[rule] = rule_counts.get(rule, 0) + 1` */
  function Bump<K(==,!new)>(counts: Dict<K, int>, k: K): Dict<K, int> {
    Put(counts, k, GetOr(counts, k, 0) + 1)
  }

  /** The counts after bumping each of `keys`, in order, on top of `counts`. */
  function CountKeys<K(==,!new)>(counts: Dict<K, int>, keys: seq<K>): Dict<K, int>
    decreases |keys|
  {
    if keys == [] then counts else CountKeys(Bump(counts, keys[0]), keys[1..])
  }

  lemma {:induction false} CountKeysAppend<K(!new)>(counts: Dict<K, int>, a: seq<K>, b: seq<K>)
    ensures CountKeys(counts, a + b) == CountKeys(CountKeys(counts, a), b)
    decreases |a|
  {
    if a != [] {
      assert (a + b)[0] == a[0] && (a + b)[1..] == a[1..] + b;
      CountKeysAppend(Bump(counts, a[0]), a[1..], b);
    } else {
      assert a + b == b;
    }
  }

  /** The number of times `k` occurs in `keys`. */
  function Occurrences<K(==)>(keys: seq<K>, k: K): nat {
    if keys == [] then 0 else (if keys[0] == k then 1 else 0) + Occurrences(keys[1..], k)
  }

  /** `m[k] = v` changes the sum of the values by the difference at `k`. */
  lemma {:induction false} PutSum<K(!new)>(d: Dict<K, int>, k: K, v: int)
    requires UniqueKeys(d)
    ensures SumValues(Put(d, k, v)) == SumValues(d) - GetOr(d, k, 0) + v
  {
    if d != [] {
      if d[0].0 == k {
        assert Put(d, k, v)[1..] == d[1..];
      } else {
        assert UniqueKeys(d[1..]) by {
          forall i, j | 0 <= i < j < |d[1..]| ensures d[1..][i].0 != d[1..][j].0 {
            assert d[1..][i] == d[i + 1] && d[1..][j] == d[j + 1];
          }
        }
        PutSum(d[1..], k, v);
        assert Put(d, k, v)[1..] == Put(d[1..], k, v);
      }
    }
  }

  /**
   * Tallying adds each key's number of occurrences to its count, and a key
   * is present afterwards exactly when it was before or occurs in `keys`.
   */
  lemma {:induction false} CountKeysGet<K(!new)>(counts: Dict<K, int>, keys: seq<K>, k: K)
    ensures GetOr(CountKeys(counts, keys), k, 0) == GetOr(counts, k, 0) + Occurrences(keys, k)
    ensures HasKey(CountKeys(counts, keys), k) <==> HasKey(counts, k) || Occurrences(keys, k) > 0
    decreases |keys|
  {
    if keys != [] {
      var v := GetOr(counts, keys[0], 0) + 1;
      PutGet(counts, keys[0], v, k);
      CountKeysGet(Put(counts, keys[0], v), keys[1..], k);
    }
  }

  /**
   * Tallying on top of counts without repeated keys repeats no key, and
   * adds one to the sum of the values per key tallied.
   */
  lemma {:induction false} CountKeysSum<K(!new)>(counts: Dict<K, int>, keys: seq<K>)
    requires UniqueKeys(counts)
    ensures UniqueKeys(CountKeys(counts, keys))
    ensures SumValues(CountKeys(counts, keys)) == SumValues(counts) + |keys|
    decreases |keys|
  {
    if keys != [] {
      var v := GetOr(counts, keys[0], 0) + 1;
      PutUnique(counts, keys[0], v);
      PutSum(counts, keys[0], v);
      CountKeysSum(Put(counts, keys[0], v), keys[1..]);
    }
  }

  lemma CountKeysStep<K(!new)>(counts: Dict<K, int>, keys: seq<K>, j: int)
    requires 0 <= j < |keys|
    ensures CountKeys(counts, keys[j..]) == CountKeys(Bump(counts, keys[j]), keys[j + 1..])
  {
    assert keys[j..][0] == keys[j] && keys[j..][1..] == keys[j + 1..];
  }

  /** The inner loop of `get_issue_counts_by_rule`: one count more for each key, in order. */
  method CountInto<K(==,!new)>(counts0: Dict<K, int>, keys: seq<K>) returns (counts: Dict<K, int>)
    ensures counts == CountKeys(counts0, keys)
  {
    counts := counts0;
    var j := 0;
    assert keys[0..] == keys;
    while j < |keys|
      invariant 0 <= j <= |keys|
      invariant CountKeys(counts, keys[j..]) == CountKeys(counts0, keys)
    {
      CountKeysStep(counts, keys, j);
      counts := Put(counts, keys[j], GetOr(counts, keys[j], 0) + 1);
      j := j + 1;
    }
    assert keys[j..] == [];
  }

  /** A key the counts do not hold ends up counted exactly when it occurs, with its number of occurrences. */
  lemma CountKeysFresh<K(!new)>(counts: Dict<K, int>, keys: seq<K>, k: K)
    requires !HasKey(counts, k)
    ensures var n := Occurrences(keys, k);
            Get(CountKeys(counts, keys), k) == if n > 0 then Some(n) else None
  {
    var c := CountKeys(counts, keys);
    CountKeysGet(counts, keys, k);
    assert Get(counts, k) == None;
    if Occurrences(keys, k) > 0 {
      assert Get(c, k).Some? && GetOr(c, k, 0) == Get(c, k).value;
    } else {
      assert !HasKey(c, k);
    }
  }

  /**
   * Counting from nothing maps each key that occurs to its number of
   * occurrences, has no other key, repeats no key, and its counts add up to
   * the number of keys counted.
   */
  lemma CountKeysSpec<K(!new)>(keys: seq<K>, k: K)
    ensures var n := Occurrences(keys, k);
            Get(CountKeys([], keys), k) == if n > 0 then Some(n) else None
    ensures UniqueKeys(CountKeys([], keys))
    ensures SumValues(CountKeys([], keys)) == |keys|
  {
    CountKeysFresh([], keys, k);
    CountKeysSum([], keys);
  }
}
