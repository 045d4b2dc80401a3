/** Python dictionaries, which remember insertion order: a sequence of
    key/value pairs with distinct keys. Assigning to a present key replaces its
    value in place; a new key goes to the end. */
module OrderedMap {
  import opened Wrappers

  type Dict<K, V> = seq<(K, V)>

  function Keys<K(==), V>(d: Dict<K, V>): (ks: seq<K>)
    ensures |ks| == |d|
    ensures forall i :: 0 <= i < |d| ==> ks[i] == d[i].0
  {
    if d == [] then [] else [d[0].0] + Keys(d[1..])
  }

  predicate DistinctKeys<K(==), V>(d: Dict<K, V>) {
    forall i, j :: 0 <= i < j < |d| ==> d[i].0 != d[j].0
  }

  predicate HasKey<K(==), V>(d: Dict<K, V>, k: K) {
    exists i :: 0 <= i < |d| && d[i].0 == k
  }

  /** `d.get(k)`: the value of the first entry with key `k`. */
  function Get<K(==), V>(d: Dict<K, V>, k: K): (r: Option<V>)
    ensures r.None? <==> !HasKey(d, k)
    ensures r.Some? ==> exists i :: 0 <= i < |d| && d[i] == (k, r.value)
  {
    if d == [] then None
    else if d[0].0 == k then Some(d[0].1)
    else
      var r := Get(d[1..], k);
      assert r.Some? ==> exists i :: 0 <= i < |d| && d[i] == (k, r.value) by {
        if r.Some? {
          var i :| 0 <= i < |d[1..]| && d[1..][i] == (k, r.value);
          assert d[i + 1] == (k, r.value);
        }
      }
      assert HasKey(d[1..], k) ==> HasKey(d, k) by {
        if HasKey(d[1..], k) {
          var i :| 0 <= i < |d[1..]| && d[1..][i].0 == k;
          assert d[i + 1].0 == k;
        }
      }
      r
  }

  /** `d[k] = v`. */
  function Put<K(==), V>(d: Dict<K, V>, k: K, v: V): (r: Dict<K, V>)
    ensures |r| == (if HasKey(d, k) then |d| else |d| + 1)
    ensures forall i :: 0 <= i < |d| ==> r[i] == (if d[i].0 == k then (k, v) else d[i])
    ensures !HasKey(d, k) ==> r[|d|] == (k, v)
  {
    if HasKey(d, k) then
      seq(|d|, i requires 0 <= i < |d| => if d[i].0 == k then (k, v) else d[i])
    else d + [(k, v)]
  }

  /** A `Put` keeps keys distinct, binds `k` to `v`, leaves every other key
      alone and keeps the key order, appending `k` only if it is new. */
  lemma PutSpec<K, V>(d: Dict<K, V>, k: K, v: V)
    requires DistinctKeys(d)
    ensures DistinctKeys(Put(d, k, v))
    ensures Get(Put(d, k, v), k) == Some(v)
    ensures forall k' :: k' != k ==> Get(Put(d, k, v), k') == Get(d, k')
    ensures Keys(Put(d, k, v)) == if HasKey(d, k) then Keys(d) else Keys(d) + [k]
  {
    var r := Put(d, k, v);
    PutDistinct(d, k, v);
    forall k' | k' != k
      ensures Get(r, k') == Get(d, k')
    {
      PutOther(d, k, v, k');
    }
    GetAtIndex(r, k);
    PutKeys(d, k, v);
  }

  /** A `Put` keeps keys distinct. */
  lemma PutDistinct<K, V>(d: Dict<K, V>, k: K, v: V)
    requires DistinctKeys(d)
    ensures DistinctKeys(Put(d, k, v))
  {
  }

  /** A `Put` keeps the key order, appending `k` only if it is new. */
  lemma PutKeys<K, V>(d: Dict<K, V>, k: K, v: V)
    ensures Keys(Put(d, k, v)) == if HasKey(d, k) then Keys(d) else Keys(d) + [k]
  {
    var r := Put(d, k, v);
    var want := if HasKey(d, k) then Keys(d) else Keys(d) + [k];
    assert |Keys(r)| == |want|;
    forall i | 0 <= i < |want| ensures Keys(r)[i] == want[i] {
      if i < |d| {
        assert r[i].0 == d[i].0;
      }
    }
  }

  /** A `Put` leaves every other key's value alone. */
  lemma PutOther<K, V>(d: Dict<K, V>, k: K, v: V, k': K)
    requires DistinctKeys(d) && k' != k
    ensures Get(Put(d, k, v), k') == Get(d, k')
  {
    var r := Put(d, k, v);
    PutDistinct(d, k, v);
    GetAtIndex(d, k');
    GetAtIndex(r, k');
    if HasKey(r, k') {
      var i :| 0 <= i < |r| && r[i].0 == k';
      assert i < |d| && d[i] == r[i];
    }
    if HasKey(d, k') {
      var i :| 0 <= i < |d| && d[i].0 == k';
      assert r[i] == d[i];
    }
  }

  /** With distinct keys, `Get` finds the value stored at the key's index. */
  lemma GetAtIndex<K, V>(d: Dict<K, V>, k: K)
    requires DistinctKeys(d)
    ensures forall i :: 0 <= i < |d| && d[i].0 == k ==> Get(d, k) == Some(d[i].1)
  {
    if d != [] && d[0].0 != k {
      GetAtIndex(d[1..], k);
      forall i | 0 <= i < |d| && d[i].0 == k
        ensures Get(d, k) == Some(d[i].1)
      {
        assert d[1..][i - 1] == d[i];
      }
    }
  }

  /** Assigns every pair of `updates` in order, as `d.update(updates)` does. */
  function Update<K(==), V>(d: Dict<K, V>, updates: Dict<K, V>): (r: Dict<K, V>)
    decreases |updates|
  {
    if updates == [] then d else Update(Put(d, updates[0].0, updates[0].1), updates[1..])
  }

  /** `update` keeps keys distinct; a key of `updates` ends bound to its LAST
      value there, and keys `updates` does not mention keep their value. */
  lemma {:induction false} UpdateSpec<K, V>(d: Dict<K, V>, updates: Dict<K, V>)
    requires DistinctKeys(d)
    ensures DistinctKeys(Update(d, updates))
    ensures forall k :: !HasKey(updates, k) ==> Get(Update(d, updates), k) == Get(d, k)
    ensures forall i :: 0 <= i < |updates| && (forall j :: i < j < |updates| ==> updates[j].0 != updates[i].0)
              ==> Get(Update(d, updates), updates[i].0) == Some(updates[i].1)
    decreases |updates|
  {
    if updates != [] {
      var (k, v) := updates[0];
      var d1 := Put(d, k, v);
      var rest := updates[1..];
      PutSpec(d, k, v);
      UpdateSpec(d1, rest);
      var r := Update(d1, rest);
      assert r == Update(d, updates);
      forall k' | !HasKey(updates, k')
        ensures Get(r, k') == Get(d, k')
      {
        assert updates[0].0 != k';
        assert !HasKey(rest, k');
      }
      forall i | 0 <= i < |updates| && (forall j :: i < j < |updates| ==> updates[j].0 != updates[i].0)
        ensures Get(r, updates[i].0) == Some(updates[i].1)
      {
        if i == 0 {
          assert !HasKey(rest, k);
        } else {
          assert rest[i - 1] == updates[i];
          assert forall j :: i - 1 < j < |rest| ==> rest[j] == updates[j + 1];
        }
      }
    }
  }

  /** Looking a key up in a concatenation searches the first part, then the second. */
  lemma {:induction false} GetConcat<K, V>(a: Dict<K, V>, b: Dict<K, V>, k: K)
    ensures Get(a + b, k) == if Get(a, k).Some? then Get(a, k) else Get(b, k)
  {
    if a == [] {
      assert a + b == b;
    } else if a[0].0 != k {
      assert (a + b)[1..] == a[1..] + b;
      GetConcat(a[1..], b, k);
    }
  }

  /** Two dictionaries with the same keys in the same places, agreeing on
      the entries for `k`, agree on `Get(_, k)`. */
  lemma {:induction false} GetSameKeys<K, V>(a: Dict<K, V>, b: Dict<K, V>, k: K)
    requires |a| == |b|
    requires forall i :: 0 <= i < |a| ==> a[i].0 == b[i].0
    requires forall i :: 0 <= i < |a| && a[i].0 == k ==> a[i].1 == b[i].1
    ensures Get(a, k) == Get(b, k)
  {
    if a != [] && a[0].0 != k {
      GetSameKeys(a[1..], b[1..], k);
    }
  }

  /** `Get` after `Put`, whether or not the keys are distinct. */
  lemma PutGet<K, V>(d: Dict<K, V>, key: K, v: V, k: K)
    ensures Get(Put(d, key, v), k) == if k == key then Some(v) else Get(d, k)
  {
    var r := Put(d, key, v);
    if !HasKey(d, key) {
      GetConcat(d, [(key, v)], k);
    } else if k != key {
      GetSameKeys(r, d, k);
    } else {
      var i :| 0 <= i < |d| && d[i].0 == key;
      assert r[i].0 == key;
    }
  }

  /** `del d[k]` without the KeyError: every entry with key `k` dropped. */
  function Remove<K(==), V>(d: Dict<K, V>, k: K): (r: Dict<K, V>)
    ensures |r| <= |d|
    ensures forall i :: 0 <= i < |r| ==> r[i].0 != k
    ensures forall p :: p in r ==> p in d
  {
    if d == [] then []
    else if d[0].0 == k then Remove(d[1..], k)
    else [d[0]] + Remove(d[1..], k)
  }

  /** Removing keeps keys distinct and every other key's value. */
  lemma {:induction false} RemoveSpec<K, V>(d: Dict<K, V>, k: K)
    requires DistinctKeys(d)
    ensures DistinctKeys(Remove(d, k))
    ensures !HasKey(Remove(d, k), k)
    ensures forall k' :: k' != k ==> Get(Remove(d, k), k') == Get(d, k')
  {
    if d != [] {
      RemoveSpec(d[1..], k);
      var rest := Remove(d[1..], k);
      if d[0].0 != k {
        var r := [d[0]] + rest;
        forall i, j | 0 <= i < j < |r| ensures r[i].0 != r[j].0 {
          if i == 0 {
            assert r[j] == rest[j - 1] && r[j] in d[1..];
          }
        }
        forall k' | k' != k ensures Get(r, k') == Get(d, k') {
          assert r[1..] == rest;
        }
      }
    }
  }

  /** Removing from a concatenation removes from both parts. */
  lemma {:induction false} RemoveConcat<K, V>(a: Dict<K, V>, b: Dict<K, V>, k: K)
    ensures Remove(a + b, k) == Remove(a, k) + Remove(b, k)
  {
    if a == [] {
      assert a + b == b;
    } else {
      assert (a + b)[1..] == a[1..] + b;
      RemoveConcat(a[1..], b, k);
    }
  }

  /** Removing an absent key changes nothing. */
  lemma {:induction false} RemoveAbsent<K, V>(d: Dict<K, V>, k: K)
    requires !HasKey(d, k)
    ensures Remove(d, k) == d
  {
    if d != [] {
      RemoveAbsent(d[1..], k);
      assert [d[0]] + d[1..] == d;
    }
  }

  /** Looking up and deleting a key held once, after a part without it. */
  lemma RemoveFront<K, V>(d: Dict<K, V>, k: K, v: V, rest: Dict<K, V>)
    requires !HasKey(d, k) && !HasKey(rest, k)
    ensures Get(d + ([(k, v)] + rest), k) == Some(v)
    ensures Remove(d + ([(k, v)] + rest), k) == d + rest
  {
    GetConcat(d, [(k, v)] + rest, k);
    RemoveConcat(d, [(k, v)] + rest, k);
    RemoveAbsent(d, k);
    RemoveAbsent(rest, k);
    assert ([(k, v)] + rest)[1..] == rest;
  }
}
