/** PHP's ordered arrays, used by both request classes for the header map,
    the option map and the per-id handle table. A PHP array keeps its keys in
    insertion order and never holds a key twice. */
module PhpArray {

  datatype Option<T> = None | Some(value: T)

  /** Keys of the pairs are pairwise different. */
  ghost predicate Distinct<K, V>(a: seq<(K, V)>) {
    forall i, j :: 0 <= i < j < |a| ==> a[i].0 != a[j].0
  }

  /** A PHP array: an ordered association list without repeated keys. */
  type Arr<K, V> = a: seq<(K, V)> | Distinct(a) witness []

  /** The position of key `k` in `a`, or `|a|` when it is absent. */
  function Find<K(==), V>(a: seq<(K, V)>, k: K): (i: nat)
    ensures i <= |a|
    ensures i < |a| ==> a[i].0 == k
    ensures forall j :: 0 <= j < i ==> a[j].0 != k
  {
    if a == [] then 0
    else if a[0].0 == k then 0
    else 1 + Find(a[1..], k)
  }

  predicate HasKey<K(==), V>(a: seq<(K, V)>, k: K) {
    Find(a, k) < |a|
  }

  /** `$a[$k]`, or None when the key is not set. */
  function Get<K(==), V>(a: seq<(K, V)>, k: K): Option<V> {
    var i := Find(a, k);
    if i < |a| then Some(a[i].1) else None
  }

  /** Two lists with the same keys at the same positions find every key at
      the same position. */
  lemma {:induction false} FindSameKeys<K, V>(a: seq<(K, V)>, b: seq<(K, V)>, k: K)
    requires |a| == |b|
    requires forall j :: 0 <= j < |a| ==> a[j].0 == b[j].0
    ensures Find(a, k) == Find(b, k)
  {
    if a != [] && a[0].0 != k {
      FindSameKeys(a[1..], b[1..], k);
    }
  }

  /** Searching a list extended at the end. */
  lemma {:induction false} FindSnoc<K, V>(a: seq<(K, V)>, x: (K, V), k: K)
    ensures Find(a + [x], k) ==
      if Find(a, k) < |a| then Find(a, k) else if x.0 == k then |a| else |a| + 1
  {
    if a == [] {
    } else if a[0].0 == k {
    } else {
      assert (a + [x])[1..] == a[1..] + [x];
      FindSnoc(a[1..], x, k);
    }
  }

  /** `$a[$k] = $v`: overwrites the value in place when the key is set,
      otherwise appends the pair at the end. */
  function Set<K(==,!new), V>(a: Arr<K, V>, k: K, v: V): (r: Arr<K, V>)
    ensures Get(r, k) == Some(v)
    ensures forall k' :: k' != k ==> Get(r, k') == Get(a, k')
    ensures HasKey(a, k) ==>
              && |r| == |a| && r[Find(a, k)] == (k, v)
              && forall j :: 0 <= j < |a| && j != Find(a, k) ==> r[j] == a[j]
    ensures !HasKey(a, k) ==> r == a + [(k, v)]
    ensures forall j :: 0 <= j < |a| ==> r[j].0 == a[j].0
  {
    var i := Find(a, k);
    if i < |a| then
      var r := a[i := (k, v)];
      forall k' ensures Find(r, k') == Find(a, k') {
        FindSameKeys(r, a, k');
      }
      r
    else
      var r := a + [(k, v)];
      forall k' ensures Find(r, k') == (if Find(a, k') < |a| then Find(a, k') else if k == k' then |a| else |a| + 1) {
        FindSnoc(a, (k, v), k');
      }
      r
  }

  /** `array_merge($a, $b)` for string keys: the pairs of `b` are stored into
      `a` one after the other, so `b`'s value wins on a shared key and the keys
      of `a` keep their places. */
  function Merge<K(==,!new), V>(a: Arr<K, V>, b: Arr<K, V>): (r: Arr<K, V>)
    ensures forall k :: HasKey(b, k) ==> Get(r, k) == Get(b, k)
    ensures forall k :: !HasKey(b, k) ==> Get(r, k) == Get(a, k)
    ensures |a| <= |r|
    ensures forall j :: 0 <= j < |a| ==> r[j].0 == a[j].0
    decreases |b|
  {
    if b == [] then a
    else
      var n := |b| - 1;
      var b' := b[..n];
      assert b == b' + [b[n]];
      var m := Merge(a, b');
      var r := Set(m, b[n].0, b[n].1);
      forall k ensures Find(b, k) == (if Find(b', k) < n then Find(b', k) else if b[n].0 == k then n else n + 1) {
        FindSnoc(b', b[n], k);
      }
      r
  }

  /** The keys after those of `a` in `r` are keys only `b` has, in `b`'s
      order. */
  ghost predicate AddsInOrder<K, V>(a: seq<(K, V)>, b: seq<(K, V)>, r: seq<(K, V)>) {
    && (forall j :: |a| <= j < |r| ==> !HasKey(a, r[j].0) && HasKey(b, r[j].0))
    && (forall i, j :: |a| <= i < j < |r| ==> Find(b, r[i].0) < Find(b, r[j].0))
  }

  /** The keys `array_merge($a, $b)` adds after those of `a` are the keys
      only `b` has, in `b`'s order. */
  lemma {:induction false} MergeOrder<K(!new), V>(a: Arr<K, V>, b: Arr<K, V>)
    ensures forall j :: |a| <= j < |Merge(a, b)| ==>
              !HasKey(a, Merge(a, b)[j].0) && HasKey(b, Merge(a, b)[j].0)
    ensures forall i, j :: |a| <= i < j < |Merge(a, b)| ==>
              Find(b, Merge(a, b)[i].0) < Find(b, Merge(a, b)[j].0)
    decreases |b|
  {
    if b != [] {
      var n := |b| - 1;
      var b' := b[..n];
      assert b == b' + [b[n]];
      MergeOrder(a, b');
      var m := Merge(a, b');
      assert Merge(a, b) == Set(m, b[n].0, b[n].1);
      MergeOrderStep(a, b', b[n], m);
    }
  }

  /** One step of `array_merge`: storing the last pair of `b` keeps the keys
      added after those of `a` in `b`'s order. */
  lemma MergeOrderStep<K(!new), V>(a: Arr<K, V>, b': Arr<K, V>, x: (K, V), m: Arr<K, V>)
    requires Distinct(b' + [x])
    requires |a| <= |m|
    requires forall j :: 0 <= j < |a| ==> m[j].0 == a[j].0
    requires AddsInOrder(a, b', m)
    ensures AddsInOrder(a, b' + [x], Set(m, x.0, x.1))
  {
    var b := b' + [x];
    var n := |b'|;
    var k := x.0;
    var r := Set(m, k, x.1);
    forall y | HasKey(b', y) ensures Find(b, y) == Find(b', y) < n {
      FindSnoc(b', x, y);
    }
    FindSnoc(b', x, k);
    forall j | 0 <= j < n ensures b'[j].0 != k {
      assert b[j] == b'[j] && b[n] == x;
      assert b[j].0 != b[n].0;
    }
    assert Find(b, k) == n;
    if HasKey(m, k) {
      forall j | |a| <= j < |r| ensures r[j].0 == m[j].0 && HasKey(b', m[j].0) {
      }
    } else {
      if HasKey(a, k) {
        PrefixKeys(a, m, k);
      }
      assert r == m + [(k, x.1)];
      forall j | |a| <= j < |m| ensures HasKey(b', r[j].0) {
      }
    }
  }

  /** A list that starts with the keys of `a` finds every key of `a` where
      `a` does. */
  lemma PrefixKeys<K, V>(a: seq<(K, V)>, m: seq<(K, V)>, k: K)
    requires |a| <= |m|
    requires forall j :: 0 <= j < |a| ==> m[j].0 == a[j].0
    requires HasKey(a, k)
    ensures Find(m, k) == Find(a, k)
  {
    var p := Find(a, k);
    assert m[p].0 == k;
  }

  ghost predicate DistinctSeq<K>(s: seq<K>) {
    forall i, j :: 0 <= i < j < |s| ==> s[i] != s[j]
  }

  /** The table built by `$t[$ids[$i]] = $i` for `$i` from 0 up. */
  function IndexIds<K(==,!new)>(ids: seq<K>): (t: Arr<K, nat>)
    ensures |t| <= |ids|
    decreases |ids|
  {
    if ids == [] then []
    else
      var n := |ids| - 1;
      Set(IndexIds(ids[..n]), ids[n], n)
  }

  /** One more step of the loop that builds the table. */
  lemma IndexIdsStep<K(!new)>(ids: seq<K>, i: nat)
    requires i < |ids|
    ensures IndexIds(ids[..i + 1]) == Set(IndexIds(ids[..i]), ids[i], i)
  {
    assert ids[..i + 1][..i] == ids[..i];
  }

  /** Every entry of the table points at a position that carries its id. */
  lemma {:induction false} IndexIdsPointsAtId<K(!new)>(ids: seq<K>, j: nat)
    requires j < |IndexIds(ids)|
    ensures IndexIds(ids)[j].1 < |ids| && ids[IndexIds(ids)[j].1] == IndexIds(ids)[j].0
    decreases |ids|
  {
    var n := |ids| - 1;
    var prev := IndexIds(ids[..n]);
    var t := IndexIds(ids);
    assert t == Set(prev, ids[n], n);
    if j < |prev| && t[j] == prev[j] {
      IndexIdsPointsAtId(ids[..n], j);
      assert ids[..n][prev[j].1] == ids[prev[j].1];
    }
  }

  /** Every id of the input has an entry in the table, and the entry holds
      a position no earlier than any occurrence of the id. */
  lemma {:induction false} IndexIdsCovers<K(!new)>(ids: seq<K>, i: nat)
    requires i < |ids|
    ensures HasKey(IndexIds(ids), ids[i])
    ensures i <= Get(IndexIds(ids), ids[i]).value
    decreases |ids|
  {
    var n := |ids| - 1;
    var prev := IndexIds(ids[..n]);
    assert IndexIds(ids) == Set(prev, ids[n], n);
    if ids[i] == ids[n] {
      SetGet(prev, ids[n], n, ids[i]);
    } else {
      assert ids[..n][i] == ids[i];
      IndexIdsCovers(ids[..n], i);
      SetKeepsAtLeast(prev, ids[n], n, ids[i], i);
    }
  }

  /** Storing under another key keeps a key and its value. */
  lemma SetKeepsAtLeast<K(!new)>(a: Arr<K, nat>, k: K, v: nat, k': K, i: nat)
    requires k' != k && HasKey(a, k') && i <= Get(a, k').value
    ensures HasKey(Set(a, k, v), k') && i <= Get(Set(a, k, v), k').value
  {
    SetGet(a, k, v, k');
  }

  /** Looking a key up after `$a[$k] = $v`. */
  lemma SetGet<K(!new)>(a: Arr<K, nat>, k: K, v: nat, k': K)
    ensures HasKey(Set(a, k, v), k') <==> k' == k || HasKey(a, k')
    ensures Get(Set(a, k, v), k') == if k' == k then Some(v) else Get(a, k')
  {
  }

  /** With pairwise different ids nothing collapses: entry `i` is
      `(ids[i], i)`. */
  lemma {:induction false} IndexIdsDistinct<K(!new)>(ids: seq<K>)
    requires DistinctSeq(ids)
    ensures |IndexIds(ids)| == |ids|
    ensures forall i :: 0 <= i < |ids| ==> IndexIds(ids)[i] == (ids[i], i)
    decreases |ids|
  {
    if ids != [] {
      var n := |ids| - 1;
      var prev := IndexIds(ids[..n]);
      IndexIdsDistinct(ids[..n]);
      assert !HasKey(prev, ids[n]) by {
        forall j | 0 <= j < |prev| ensures prev[j].0 != ids[n] {
          assert prev[j] == (ids[..n][j], j);
        }
      }
    }
  }

  /** Every position the table holds is a position of the input. */
  lemma IndexIdsInRange<K(!new)>(ids: seq<K>)
    ensures forall j :: 0 <= j < |IndexIds(ids)| ==> IndexIds(ids)[j].1 < |ids|
  {
    forall j | 0 <= j < |IndexIds(ids)| ensures IndexIds(ids)[j].1 < |ids| {
      IndexIdsPointsAtId(ids, j);
    }
  }

  /** `array_map($f, $s)` on a list: `f` applied to every element, in order. */
  function MapSeq<T, U>(s: seq<T>, f: T -> U): (r: seq<U>)
    ensures |r| == |s|
    decreases |s|
  {
    if s == [] then [] else MapSeq(s[..|s| - 1], f) + [f(s[|s| - 1])]
  }

  /** Element `i` of the mapped list is `f` of element `i`. */
  lemma {:induction false} MapSeqAt<T, U>(s: seq<T>, f: T -> U, i: nat)
    requires i < |s|
    ensures MapSeq(s, f)[i] == f(s[i])
    decreases |s|
  {
    var n := |s| - 1;
    if i < n {
      MapSeqAt(s[..n], f, i);
      assert s[..n][i] == s[i];
    }
  }

  /** Mapping a list extended at the end extends the mapped list. */
  lemma MapSeqSnoc<T, U>(s: seq<T>, x: T, f: T -> U)
    ensures MapSeq(s + [x], f) == MapSeq(s, f) + [f(x)]
  {
    assert (s + [x])[..|s|] == s;
  }

  /** In an array every key is found where it stands. */
  lemma FindAt<K, V>(a: Arr<K, V>, j: nat)
    requires j < |a|
    ensures Find(a, a[j].0) == j
  {
  }

  /** A repeated id keeps the position of its last occurrence. */
  lemma IndexIdsLast<K(!new)>(ids: seq<K>, j: nat, i: nat)
    requires j < |IndexIds(ids)| && i < |ids|
    requires ids[i] == IndexIds(ids)[j].0
    ensures i <= IndexIds(ids)[j].1
  {
    FindAt(IndexIds(ids), j);
    IndexIdsCovers(ids, i);
  }
}
