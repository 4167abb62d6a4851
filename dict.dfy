/**
 * The two ways the code fills a `Dictionary`: indexer assignment, where a
 * later duplicate key overwrites an earlier one, and `TryAdd`, where the
 * first binding of a key is kept.
 */
module Dict {

  /** Position of the last occurrence of `k` in `keys`. */
  function LastIndex<K(==)>(keys: seq<K>, k: K): (i: nat)
    requires k in keys
    ensures i < |keys| && keys[i] == k
    ensures forall j :: i < j < |keys| ==> keys[j] != k
  {
    if keys[|keys| - 1] == k then |keys| - 1 else LastIndex(keys[..|keys| - 1], k)
  }

  /** The keys of a sequence of key/value entries. */
  function Keys<K, V>(entries: seq<(K, V)>): set<K>
  {
    set i | 0 <= i < |entries| :: entries[i].0
  }

  /** Every key of `keys` bound to the value at its last occurrence. */
  function LastWins<K(==), V>(keys: seq<K>, values: seq<V>): (m: map<K, V>)
    requires |keys| <= |values|
    ensures m.Keys == set k | k in keys
    ensures forall i :: 0 <= i < |keys| ==> keys[i] in m
  {
    map k | k in keys :: values[LastIndex(keys, k)]
  }

  /** Assigning one more pair to the dictionary of a prefix gives the dictionary of the longer prefix. */
  lemma LastWinsSnoc<K, V>(keys: seq<K>, values: seq<V>, n: nat)
    requires n < |keys| && n < |values|
    ensures LastWins(keys[..n + 1], values[..n + 1]) == LastWins(keys[..n], values[..n])[keys[n] := values[n]]
  {
    var lhs := LastWins(keys[..n + 1], values[..n + 1]);
    var rhs := LastWins(keys[..n], values[..n])[keys[n] := values[n]];
    assert keys[..n + 1] == keys[..n] + [keys[n]];
    forall k | k in lhs.Keys
      ensures k in rhs && lhs[k] == rhs[k]
    {
      if k != keys[n] {
        assert k in keys[..n];
        var i := LastIndex(keys[..n + 1], k);
        assert i < n;
        assert LastIndex(keys[..n + 1], k) == LastIndex(keys[..n], k);
      }
    }
  }

  /** `LastWins` states "the last occurrence wins" outright. */
  lemma LastWinsAt<K, V>(keys: seq<K>, values: seq<V>, i: nat)
    requires |keys| <= |values| && i < |keys|
    requires forall j :: i < j < |keys| ==> keys[j] != keys[i]
    ensures LastWins(keys, values)[keys[i]] == values[i]
  {
    var p := LastIndex(keys, keys[i]);
    assert p == i;
  }

  /** The keys of one more entry. */
  lemma KeysSnoc<K, V>(entries: seq<(K, V)>, n: nat)
    requires n < |entries|
    ensures Keys(entries[..n + 1]) == Keys(entries[..n]) + {entries[n].0}
  {
    var short, long := entries[..n], entries[..n + 1];
    assert long[n].0 == entries[n].0;
    forall k | k in Keys(long) ensures k in Keys(short) + {entries[n].0} {
      var p :| 0 <= p < n + 1 && long[p].0 == k;
      if p < n { assert short[p].0 == k; }
    }
    forall k | k in Keys(short) ensures k in Keys(long) {
      var p :| 0 <= p < n && short[p].0 == k;
      assert long[p].0 == k;
    }
  }

  /**
   * `TryAdd` of every entry in order, starting from `d0`: a key already
   * present keeps its value (from `d0`, or from its first entry).
   */
  function FirstWins<K(==), V>(d0: map<K, V>, entries: seq<(K, V)>): map<K, V>
  {
    if entries == [] then d0
    else
      var n := |entries| - 1;
      var d := FirstWins(d0, entries[..n]);
      if entries[n].0 in d then d else d[entries[n].0 := entries[n].1]
  }

  /** `TryAdd` binds exactly the keys of `d0` and of the entries, and never changes a binding of `d0`. */
  lemma {:induction false} FirstWinsKeys<K, V>(d0: map<K, V>, entries: seq<(K, V)>)
    ensures FirstWins(d0, entries).Keys == d0.Keys + Keys(entries)
    ensures forall k :: k in d0 ==> FirstWins(d0, entries)[k] == d0[k]
  {
    if entries != [] {
      var n := |entries| - 1;
      FirstWinsKeys(d0, entries[..n]);
      KeysSnoc(entries, n);
      assert entries[..n + 1] == entries;
    }
  }

  /** One more `TryAdd` on the dictionary of a prefix gives the dictionary of the longer prefix. */
  lemma FirstWinsSnoc<K, V>(d0: map<K, V>, entries: seq<(K, V)>, n: nat)
    requires n < |entries|
    ensures entries[n].0 in FirstWins(d0, entries[..n]) ==>
      FirstWins(d0, entries[..n + 1]) == FirstWins(d0, entries[..n])
    ensures entries[n].0 !in FirstWins(d0, entries[..n]) ==>
      FirstWins(d0, entries[..n + 1]) == FirstWins(d0, entries[..n])[entries[n].0 := entries[n].1]
  {
    assert entries[..n + 1][..n] == entries[..n];
  }

  /** One more entry is one more `TryAdd`. */
  lemma FirstWinsAppend<K, V>(d0: map<K, V>, entries: seq<(K, V)>, key: K, value: V)
    ensures var d := FirstWins(d0, entries);
      FirstWins(d0, entries + [(key, value)]) == if key in d then d else d[key := value]
  {
    assert (entries + [(key, value)])[..|entries|] == entries;
  }

  /** `FirstWins` states "the first binding wins" outright. */
  lemma {:induction false} FirstWinsAt<K, V>(d0: map<K, V>, entries: seq<(K, V)>, i: nat)
    requires i < |entries| && entries[i].0 !in d0
    requires forall j :: 0 <= j < i ==> entries[j].0 != entries[i].0
    ensures entries[i].0 in FirstWins(d0, entries)
    ensures FirstWins(d0, entries)[entries[i].0] == entries[i].1
  {
    var n := |entries| - 1;
    FirstWinsKeys(d0, entries[..n]);
    if i < n {
      FirstWinsAt(d0, entries[..n], i);
    }
  }
}
