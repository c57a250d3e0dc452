/**
  A Python `dict` where iteration order matters: its entries in insertion
  order, each key at most once. Assigning to a key that is already present
  keeps the key where it was and replaces the value there.
 */
module PyDict {
  import opened Wrappers

  type Dict<K, V> = seq<(K, V)>

  predicate HasKey<K(==), V>(d: Dict<K, V>, k: K) {
    exists i :: 0 <= i < |d| && d[i].0 == k
  }

  /** No key occurs twice. */
  predicate UniqueKeys<K(==), V>(d: Dict<K, V>) {
    forall i, j :: 0 <= i < j < |d| ==> d[i].0 != d[j].0
  }

  /** The position of the first entry with key `k`. */
  function IndexOf<K(==), V>(d: Dict<K, V>, k: K): (i: nat)
    requires HasKey(d, k)
    ensures i < |d| && d[i].0 == k
    ensures forall j :: 0 <= j < i ==> d[j].0 != k
  {
    if d[0].0 == k then 0
    else
      assert HasKey(d[1..], k) by {
        var i :| 0 <= i < |d| && d[i].0 == k;
        assert i > 0 && d[1..][i - 1].0 == k;
      }
      1 + IndexOf(d[1..], k)
  }

  /** `d.get(k)`. */
  function Get<K(==), V>(d: Dict<K, V>, k: K): Option<V> {
    if HasKey(d, k) then Some(d[IndexOf(d, k)].1) else None
  }

  /** `d[k] = v`. */
  function Put<K(==), V>(d: Dict<K, V>, k: K, v: V): Dict<K, V> {
    if HasKey(d, k) then d[IndexOf(d, k) := (k, v)] else d + [(k, v)]
  }

  /** After `d[k] = v`, `k` maps to `v` and every other key to what it did before. */
  lemma PutGet<K, V>(d: Dict<K, V>, k: K, v: V, k': K)
    ensures Get(Put(d, k, v), k') == if k' == k then Some(v) else Get(d, k')
  {
    var r := Put(d, k, v);
    if HasKey(d, k) {
      var i := IndexOf(d, k);
      assert forall j :: 0 <= j < |d| ==> r[j].0 == d[j].0;
      assert HasKey(r, k') <==> HasKey(d, k');
      if HasKey(d, k') {
        assert IndexOf(r, k') == IndexOf(d, k');
      }
    } else {
      assert r[|d|].0 == k;
      assert forall m :: 0 <= m < |d| ==> r[m] == d[m];
      if k' != k && HasKey(r, k') {
        var j := IndexOf(r, k');
        assert j < |d|;
        assert HasKey(d, k');
        assert IndexOf(d, k') == j;
      }
      if k' != k && HasKey(d, k') {
        var a := IndexOf(d, k');
        assert r[a].0 == k';
      }
    }
  }

  /** `d[k] = v` keeps the keys unique, appending only a new key. */
  lemma PutUnique<K, V>(d: Dict<K, V>, k: K, v: V)
    requires UniqueKeys(d)
    ensures UniqueKeys(Put(d, k, v))
    ensures |Put(d, k, v)| == if HasKey(d, k) then |d| else |d| + 1
  {
  }
}
