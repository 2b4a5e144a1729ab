/** The `$handles` table of `asyncMultipleRequests`, the same in both
    classes: the loop that starts the transfers stores `$handles[$uuid] =
    $ch`, and the loop after them visits `foreach ($handles as $uuid =>
    $ch)`. A handle is named by its position among the started transfers;
    the visit is generic in what is done with each id and outcome. */
module HandleTable {
  import opened PhpArray

  /** `$handles[$uuid] = $ch` for the `i`-th handle: one more step of the
      table of ids. */
  method Register<K(==,!new)>(table: Arr<K, nat>, ids: seq<K>, i: nat) returns (table': Arr<K, nat>)
    requires i < |ids| && table == IndexIds(ids[..i])
    ensures table' == IndexIds(ids[..i + 1])
  {
    IndexIdsStep(ids, i);
    table' := Set(table, ids[i], i);
  }

  /** The table with each handle position replaced by the outcome of the
      handle there. */
  function Resolve<K, T>(table: seq<(K, nat)>, ts: seq<T>): (r: seq<(K, T)>)
    requires forall j :: 0 <= j < |table| ==> table[j].1 < |ts|
    ensures |r| == |table|
    decreases |table|
  {
    if table == [] then []
    else
      var n := |table| - 1;
      Resolve(table[..n], ts) + [(table[n].0, ts[table[n].1])]
  }

  /** Entry `j` of the resolved table holds the id of entry `j` and the
      outcome of its handle. */
  lemma {:induction false} ResolveAt<K, T>(table: seq<(K, nat)>, ts: seq<T>, j: nat)
    requires forall j :: 0 <= j < |table| ==> table[j].1 < |ts|
    requires j < |table|
    ensures Resolve(table, ts)[j] == (table[j].0, ts[table[j].1])
    decreases |table|
  {
    var n := |table| - 1;
    if j < n {
      assert table[..n][j] == table[j];
      ResolveAt(table[..n], ts, j);
    }
  }

  /** What the visiting loop does for the table, one `f` per entry, in
      table order. */
  function Visit<K, T, U>(table: seq<(K, nat)>, ts: seq<T>, f: ((K, T)) -> U): seq<U>
    requires forall j :: 0 <= j < |table| ==> table[j].1 < |ts|
  {
    MapSeq(Resolve(table, ts), f)
  }

  lemma VisitAt<K, T, U>(table: seq<(K, nat)>, ts: seq<T>, f: ((K, T)) -> U, j: nat)
    requires forall j :: 0 <= j < |table| ==> table[j].1 < |ts|
    requires j < |table|
    ensures |Visit(table, ts, f)| == |table|
    ensures Visit(table, ts, f)[j] == f((table[j].0, ts[table[j].1]))
  {
    ResolveAt(table, ts, j);
    MapSeqAt(Resolve(table, ts), f, j);
  }

  /** One more iteration of the visiting loop. */
  lemma VisitStep<K, T, U>(table: seq<(K, nat)>, ts: seq<T>, f: ((K, T)) -> U, j: nat)
    requires forall j :: 0 <= j < |table| ==> table[j].1 < |ts|
    requires j < |table|
    ensures Visit(table[..j + 1], ts, f) == Visit(table[..j], ts, f) + [f((table[j].0, ts[table[j].1]))]
  {
    assert table[..j + 1][..j] == table[..j];
    assert Resolve(table[..j + 1], ts) == Resolve(table[..j], ts) + [(table[j].0, ts[table[j].1])];
    MapSeqSnoc(Resolve(table[..j], ts), (table[j].0, ts[table[j].1]), f);
  }

  /** The visit of the table built from `ids`, with `ts[i]` the outcome of
      the `i`-th handle. */
  function VisitAll<K(==,!new), T, U>(ids: seq<K>, ts: seq<T>, f: ((K, T)) -> U): seq<U>
    requires |ts| == |ids|
  {
    IndexIdsInRange(ids);
    Visit(IndexIds(ids), ts, f)
  }

  /** With pairwise different ids every handle is visited once, in start
      order. */
  lemma VisitAllDistinct<K(!new), T, U>(ids: seq<K>, ts: seq<T>, f: ((K, T)) -> U)
    requires |ts| == |ids| && DistinctSeq(ids)
    ensures |VisitAll(ids, ts, f)| == |ids|
    ensures forall i :: 0 <= i < |ids| ==> VisitAll(ids, ts, f)[i] == f((ids[i], ts[i]))
  {
    IndexIdsDistinct(ids);
    IndexIdsInRange(ids);
    forall i | 0 <= i < |ids|
      ensures VisitAll(ids, ts, f)[i] == f((ids[i], ts[i]))
    {
      VisitAt(IndexIds(ids), ts, f, i);
    }
  }

  /** With a repeated id only the last handle started under it is
      visited. */
  lemma VisitAllRepeated<K(!new), T, U>(ids: seq<K>, ts: seq<T>, f: ((K, T)) -> U, j: nat)
    requires |ts| == |ids| && j < |IndexIds(ids)|
    ensures var (uuid, i) := IndexIds(ids)[j];
      && i < |ids| && ids[i] == uuid
      && (forall i' :: i < i' < |ids| ==> ids[i'] != uuid)
      && VisitAll(ids, ts, f)[j] == f((uuid, ts[i]))
  {
    IndexIdsPointsAtId(ids, j);
    IndexIdsInRange(ids);
    VisitAt(IndexIds(ids), ts, f, j);
    forall i' | IndexIds(ids)[j].1 < i' < |ids| ensures ids[i'] != IndexIds(ids)[j].0 {
      if ids[i'] == IndexIds(ids)[j].0 {
        IndexIdsLast(ids, j, i');
      }
    }
  }
}
