/** A table filled in order, where a later entry overwrites an earlier one under the same key. */
module Lookup {

  function Filled<V>(keys: seq<string>, values: seq<V>, n: nat): map<string, V>
    requires n <= |keys| == |values|
  {
    if n == 0 then map[] else Filled(keys, values, n - 1)[keys[n - 1] := values[n - 1]]
  }

  /** j is the last of the first n positions with the key. */
  ghost predicate Last(keys: seq<string>, n: nat, j: int, key: string)
    requires n <= |keys|
  {
    0 <= j < n && keys[j] == key && forall m :: j < m < n ==> keys[m] != key
  }

  lemma {:induction false} SomeLast(keys: seq<string>, n: nat, i: nat)
    requires i < n <= |keys|
    ensures exists j :: i <= j && Last(keys, n, j, keys[i])
  {
    if keys[n - 1] == keys[i] {
      assert Last(keys, n, n - 1, keys[i]);
    } else {
      SomeLast(keys, n - 1, i);
      var j :| i <= j && Last(keys, n - 1, j, keys[i]);
      assert Last(keys, n, j, keys[i]);
    }
  }

  /** The table holds, for each key, the value at its last position. */
  lemma {:induction false} LastWins<V>(keys: seq<string>, values: seq<V>, n: nat, j: int, key: string)
    requires n <= |keys| == |values| && Last(keys, n, j, key)
    ensures key in Filled(keys, values, n) && Filled(keys, values, n)[key] == values[j]
  {
    if j < n - 1 {
      assert Last(keys, n - 1, j, key);
      LastWins(keys, values, n - 1, j, key);
    }
  }

  lemma {:induction false} OnlyKeys<V>(keys: seq<string>, values: seq<V>, n: nat, key: string)
    requires n <= |keys| == |values| && key in Filled(keys, values, n)
    ensures exists i :: 0 <= i < n && keys[i] == key
  {
    if keys[n - 1] != key {
      OnlyKeys(keys, values, n - 1, key);
    }
  }

  function Elements<T>(s: seq<T>): set<T> {
    set i | 0 <= i < |s| :: s[i]
  }

  /** Nothing is repeated exactly if there are as many different elements as positions. */
  lemma {:induction false} DistinctExactly<T>(s: seq<T>)
    ensures |Elements(s)| <= |s|
    ensures |Elements(s)| == |s| <==> forall i, j :: 0 <= i < j < |s| ==> s[i] != s[j]
    decreases |s|
  {
    if s != [] {
      var front, last := s[..|s| - 1], s[|s| - 1];
      DistinctExactly(front);
      assert forall i :: 0 <= i < |front| ==> front[i] == s[i];
      assert Elements(s) == Elements(front) + {last};
    }
  }
}
