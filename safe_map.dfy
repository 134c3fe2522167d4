/**
 * The lock-guarded map `SafeMap[K, V]` (services/connection-service/util/safe_map.go).
 *
 * The read/write mutex is dropped: every call runs on its own. Callbacks handed to
 * `ForEach` and `ForRandomEntry` are not run here; the methods return the entries
 * the callback is invoked on, in invocation order, and the caller performs the
 * callback's effect on each of them.
 */
module SafeMapModel {
  import opened Wrappers

  /** `visited` lists every entry of `m` exactly once, each with its current value. */
  ghost predicate Enumerates<K, V>(visited: seq<(K, V)>, m: map<K, V>)
  {
    && (forall i :: 0 <= i < |visited| ==> visited[i].0 in m && m[visited[i].0] == visited[i].1)
    && (forall i, j :: 0 <= i < j < |visited| ==> visited[i].0 != visited[j].0)
    && (forall k :: k in m ==> exists i :: 0 <= i < |visited| && visited[i].0 == k)
  }

  class SafeMap<K(==), V> {
    var data: map<K, V>

    /** `NewSafeMap`: an empty map. */
    constructor ()
      ensures data == map[]
    {
      data := map[];
    }

    /** `Set(k, v)`: binds `k` to `v`, leaving every other key as it was. */
    method Set(k: K, v: V)
      modifies this
      ensures data == old(data)[k := v]
    {
      data := data[k := v];
    }

    /**
     * `ComputeIfAbsent(k, supplier)`: on an absent key stores the supplied value and
     * reports `true`; on a present key returns the stored value, reports `false` and
     * changes nothing. The supplier's result is passed in as `supplied`.
     */
    method ComputeIfAbsent(k: K, supplied: V) returns (val: V, created: bool)
      modifies this
      ensures created <==> k !in old(data)
      ensures created ==> val == supplied && data == old(data)[k := supplied]
      ensures !created ==> val == old(data)[k] && data == old(data)
    {
      if k in data {
        val, created := data[k], false;
      } else {
        val, created := supplied, true;
        data := data[k := val];
      }
    }

    /** `Get(k)`: the stored value if `k` is present; Go's `(zero, false)` is `None`. */
    method Get(k: K) returns (val: Option<V>)
      ensures val.Some? <==> k in data
      ensures val.Some? ==> val.value == data[k]
    {
      if k in data {
        val := Some(data[k]);
      } else {
        val := None;
      }
    }

    /**
     * `ForRandomEntry(f)`: the entry `f` is called on, or `None` (the source's `false`)
     * when the map is empty. `rnd` stands for `rand.Int()`; the order in which the
     * range loop meets the keys is a nondeterministic choice.
     */
    method ForRandomEntry(rnd: nat) returns (visited: Option<(K, V)>)
      ensures visited.None? <==> |data| == 0
      ensures visited.Some? ==> visited.value.0 in data && data[visited.value.0] == visited.value.1
    {
      var idx := 0;
      var size := |data|;
      if size == 0 {
        return None;
      }
      var target := rnd % size;
      var remaining := data.Keys;
      while true
        invariant remaining <= data.Keys
        invariant idx + |remaining| == size
        invariant idx <= target
        decreases |remaining|
      {
        var key :| key in remaining;
        if idx == target {
          return Some((key, data[key]));
        }
        idx := idx + 1;
        remaining := remaining - {key};
      }
    }

    /** `Delete(k)`: removes `k` only; an absent key is a no-op. */
    method Delete(k: K)
      modifies this
      ensures data == old(data) - {k}
      ensures k !in old(data) ==> data == old(data)
    {
      data := data - {k};
    }

    /** `Len()`: the number of keys. */
    method Len() returns (n: nat)
      ensures n == |data.Keys|
    {
      n := |data|;
    }

    /** `ForEach(f)`: the entries `f` is applied to, every entry exactly once, in range order. */
    method ForEach() returns (visited: seq<(K, V)>)
      ensures Enumerates(visited, data)
      ensures |visited| == |data|
    {
      visited := [];
      var remaining := data.Keys;
      while remaining != {}
        invariant remaining <= data.Keys
        invariant |visited| + |remaining| == |data|
        invariant forall i :: 0 <= i < |visited| ==>
          visited[i].0 in data && visited[i].0 !in remaining && data[visited[i].0] == visited[i].1
        invariant forall i, j :: 0 <= i < j < |visited| ==> visited[i].0 != visited[j].0
        invariant forall k :: k in data && k !in remaining ==> exists i :: 0 <= i < |visited| && visited[i].0 == k
        decreases |remaining|
      {
        var key :| key in remaining;
        ghost var before := visited;
        visited := visited + [(key, data[key])];
        forall k | k in data && k !in remaining - {key}
          ensures exists i :: 0 <= i < |visited| && visited[i].0 == k
        {
          if k == key {
            assert visited[|before|].0 == k;
          } else {
            var i :| 0 <= i < |before| && before[i].0 == k;
            assert visited[i].0 == k;
          }
        }
        remaining := remaining - {key};
      }
    }
  }
}
