/**
 * A JavaScript object's own string-keyed properties, in insertion order:
 * a list of (key, value) pairs. `Object.entries` walks it front to back,
 * and the spread update `{ ...obj, [k]: v }` replaces k's value in place or
 * appends k at the end.
 */
module OrderedMaps {
  import opened Wrappers

  type Assoc<K, V> = seq<(K, V)>

  function Keys<K, V>(xs: Assoc<K, V>): seq<K> {
    if xs == [] then [] else [xs[0].0] + Keys(xs[1..])
  }

  predicate UniqueKeys<K(==), V>(xs: Assoc<K, V>) {
    forall i, j :: 0 <= i < j < |xs| ==> xs[i].0 != xs[j].0
  }

  /** `obj[k]`, with `None` for `undefined`. */
  function Lookup<K(==), V>(xs: Assoc<K, V>, k: K): Option<V> {
    if xs == [] then None
    else if xs[0].0 == k then Some(xs[0].1)
    else Lookup(xs[1..], k)
  }

  lemma {:induction false} LookupKeys<K, V>(xs: Assoc<K, V>, k: K)
    ensures Lookup(xs, k).Some? <==> k in Keys(xs)
  {
    if xs != [] {
      LookupKeys(xs[1..], k);
    }
  }

  lemma {:induction false} LookupFound<K, V>(xs: Assoc<K, V>, i: nat)
    requires UniqueKeys(xs) && i < |xs|
    ensures Lookup(xs, xs[i].0) == Some(xs[i].1)
  {
    if i > 0 {
      assert UniqueKeys(xs[1..]) by {
        forall a, b | 0 <= a < b < |xs[1..]| ensures xs[1..][a].0 != xs[1..][b].0 {
          assert xs[1..][a] == xs[a + 1] && xs[1..][b] == xs[b + 1];
        }
      }
      assert xs[1..][i - 1] == xs[i];
      LookupFound(xs[1..], i - 1);
    }
  }

  /** `{ ...xs, [k]: v }`. */
  function Update<K(==,!new), V>(xs: Assoc<K, V>, k: K, v: V): (r: Assoc<K, V>)
    ensures Lookup(r, k) == Some(v)
    ensures forall k' :: k' != k ==> Lookup(r, k') == Lookup(xs, k')
    ensures Keys(r) == if k in Keys(xs) then Keys(xs) else Keys(xs) + [k]
    ensures |r| == if k in Keys(xs) then |xs| else |xs| + 1
  {
    if xs == [] then [(k, v)]
    else if xs[0].0 == k then [(k, v)] + xs[1..]
    else [xs[0]] + Update(xs[1..], k, v)
  }

  lemma {:induction false} KeysIndex<K, V>(xs: Assoc<K, V>)
    ensures |Keys(xs)| == |xs|
    ensures forall i :: 0 <= i < |xs| ==> Keys(xs)[i] == xs[i].0
  {
    if xs != [] {
      KeysIndex(xs[1..]);
      forall i | 0 < i < |xs| ensures Keys(xs)[i] == xs[i].0 {
        assert Keys(xs)[i] == Keys(xs[1..])[i - 1];
        assert xs[1..][i - 1] == xs[i];
      }
    }
  }

  /** The spread update never introduces a second copy of a key. */
  lemma UpdateKeepsUnique<K(!new), V>(xs: Assoc<K, V>, k: K, v: V)
    requires UniqueKeys(xs)
    ensures UniqueKeys(Update(xs, k, v))
  {
    var r := Update(xs, k, v);
    KeysIndex(xs);
    KeysIndex(r);
    forall i, j | 0 <= i < j < |r| ensures r[i].0 != r[j].0 {
      assert Keys(r)[i] == r[i].0 && Keys(r)[j] == r[j].0;
      if j < |xs| {
        assert Keys(xs)[i] == xs[i].0 && Keys(xs)[j] == xs[j].0;
      } else {
        assert k !in Keys(xs) && Keys(r)[j] == k;
        assert Keys(r)[i] == Keys(xs)[i];
      }
    }
  }
}
