/**
  The group-by idiom shared by every report: a `forEach` over items that does
  `bucket[key] = (bucket[key] ?? zero) + value`, skipping items that contribute nothing.
  Each item is first turned into an entry: `Some((key, value))` or `None`.
*/
module Grouping {
  import opened Wrappers

  /** Adds `v` into bucket `k`, starting an absent bucket at `zero`. */
  function Bump<V>(m: map<string, V>, k: string, v: V, zero: V, add: (V, V) -> V): (r: map<string, V>)
    ensures r.Keys == m.Keys + {k}
    ensures forall k' :: k' in m && k' != k ==> r[k'] == m[k']
  {
    m[k := add(if k in m then m[k] else zero, v)]
  }

  /** The buckets after folding `entries` left to right. */
  function Tally<V>(entries: seq<Option<(string, V)>>, zero: V, add: (V, V) -> V): map<string, V>
    decreases |entries|
  {
    if |entries| == 0 then map[]
    else
      var m := Tally(entries[..|entries| - 1], zero, add);
      match entries[|entries| - 1]
      case None => m
      case Some(kv) => Bump(m, kv.0, kv.1, zero, add)
  }

  /** Entry `e` contributes to bucket `k`. */
  predicate Hits<V>(e: Option<(string, V)>, k: string) {
    e.Some? && e.value.0 == k
  }

  /** The values of just the entries for bucket `k`, accumulated in order from `zero`. */
  function BucketTotal<V>(entries: seq<Option<(string, V)>>, k: string, zero: V, add: (V, V) -> V): V
    decreases |entries|
  {
    if |entries| == 0 then zero
    else
      var t := BucketTotal(entries[..|entries| - 1], k, zero, add);
      var e := entries[|entries| - 1];
      if Hits(e, k) then add(t, e.value.1) else t
  }

  /**
    A bucket exists exactly for the keys some entry contributes to, and holds the
    accumulation of exactly those entries' values.
  */
  lemma {:induction false} TallySpec<V>(entries: seq<Option<(string, V)>>, zero: V, add: (V, V) -> V, k: string)
    ensures k in Tally(entries, zero, add) <==> exists i :: 0 <= i < |entries| && Hits(entries[i], k)
    ensures k in Tally(entries, zero, add) ==> Tally(entries, zero, add)[k] == BucketTotal(entries, k, zero, add)
    ensures k !in Tally(entries, zero, add) ==> BucketTotal(entries, k, zero, add) == zero
    decreases |entries|
  {
    if |entries| > 0 {
      var pre := entries[..|entries| - 1];
      var e := entries[|entries| - 1];
      TallySpec(pre, zero, add, k);
      if exists i :: 0 <= i < |pre| && Hits(pre[i], k) {
        var i :| 0 <= i < |pre| && Hits(pre[i], k);
        assert Hits(entries[i], k);
      }
      if exists i :: 0 <= i < |entries| && Hits(entries[i], k) {
        var i :| 0 <= i < |entries| && Hits(entries[i], k);
        if i < |pre| {
          assert Hits(pre[i], k);
        }
      }
    }
  }

  /** An entry that contributes nothing leaves every bucket as it was. */
  lemma TallySkips<V>(entries: seq<Option<(string, V)>>, zero: V, add: (V, V) -> V)
    ensures Tally(entries + [None], zero, add) == Tally(entries, zero, add)
  {
    assert (entries + [None])[..|entries|] == entries;
  }
}
