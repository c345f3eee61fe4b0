/** The immutable lookup tables the enumerations build once when their class
    is initialised: an `ImmutableMap.Builder` fed one entry per constant, and
    the `Optional.fromNullable(map.get(key))` lookup used on them.
 */
module Tables {
  import opened Results

  /** One entry per value, keyed by `key`, in the order of `values`. */
  function KeyBy<K, V>(values: seq<V>, key: V -> K): (entries: seq<(K, V)>)
    ensures |entries| == |values|
    ensures forall i :: 0 <= i < |values| ==> entries[i] == (key(values[i]), values[i])
  {
    if |values| == 0 then [] else KeyBy(values[..|values| - 1], key) + [(key(values[|values| - 1]), values[|values| - 1])]
  }

  /** No key occurs in two entries. */
  predicate DistinctKeys<K(==), V>(entries: seq<(K, V)>) {
    forall i, j :: 0 <= i < j < |entries| ==> entries[i].0 != entries[j].0
  }

  /** `ImmutableMap.Builder.put` for every entry, then `build()`, which
      rejects a key that was put twice. */
  function Build<K(==), V>(entries: seq<(K, V)>): (r: Result<map<K, V>>)
    ensures r.Success? <==> DistinctKeys(entries)
    ensures r.Success? ==> forall i :: 0 <= i < |entries| ==> entries[i].0 in r.value && r.value[entries[i].0] == entries[i].1
    ensures r.Success? ==> forall k :: k in r.value ==> exists i :: 0 <= i < |entries| && entries[i].0 == k
  {
    if |entries| == 0 then Success(map[])
    else
      var front := entries[..|entries| - 1];
      var (k, v) := entries[|entries| - 1];
      match Build(front)
      case Failure(e) =>
        assert !DistinctKeys(entries) by {
          var i, j :| 0 <= i < j < |front| && front[i].0 == front[j].0;
          assert entries[i] == front[i] && entries[j] == front[j];
        }
        Failure(e)
      case Success(m) =>
        if k in m then
          assert !DistinctKeys(entries) by {
            var i :| 0 <= i < |front| && front[i].0 == k;
            assert entries[i] == front[i];
          }
          Failure(IllegalArgument("duplicate key"))
        else
          assert DistinctKeys(entries) by {
            forall i, j | 0 <= i < j < |entries|
              ensures entries[i].0 != entries[j].0
            {
              if j < |front| {
                assert entries[i] == front[i] && entries[j] == front[j];
              } else {
                assert entries[i] == front[i];
              }
            }
          }
          var m' := m[k := v];
          assert forall i :: 0 <= i < |front| ==> entries[i] == front[i];
          Success(m')
  }

  /** `Optional.fromNullable(table.get(key))`. */
  function Get<K, V>(table: map<K, V>, key: K): (r: Option<V>)
    ensures r.Some? <==> key in table
    ensures r.Some? ==> r.value == table[key]
  {
    if key in table then Some(table[key]) else None
  }
}
