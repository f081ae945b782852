/** Small shared vocabulary: optional values, and sums over finite maps. */
module Prelude {

  datatype Option<+T> = None | Some(value: T)

  /** The value stored under a key, or zero: how both the Go maps of counters and
      the SQL "no row" case are read. */
  function Count<K>(m: map<K, int>, k: K): int {
    if k in m then m[k] else 0
  }

  function Digit(d: int): char
    requires 0 <= d <= 9
  {
    '0' + d as char
  }

  function Max(a: int, b: int): int {
    if a < b then b else a
  }

  function Min(a: int, b: int): int {
    if a < b then a else b
  }

  lemma SomeKey<K, V>(m: map<K, V>) returns (k: K)
    requires m != map[]
    ensures k in m
  {
    k :| k in m;
  }

  lemma SomeMember<T>(s: set<T>) returns (x: T)
    requires s != {}
    ensures x in s
  {
    x :| x in s;
  }

  /** Sum of all values of a map, whatever order the keys are visited in. */
  ghost function Sum<K>(m: map<K, int>): int {
    if m == map[] then 0 else
      var k :| k in m;
      m[k] + Sum(m - {k})
  }

  /** Any key may be taken out first. */
  lemma {:induction false} SumRemove<K>(m: map<K, int>, k: K)
    requires k in m
    ensures Sum(m) == m[k] + Sum(m - {k})
    decreases |m|
  {
    var first :| first in m && Sum(m) == m[first] + Sum(m - {first});
    if first != k {
      assert |m - {first}| < |m| && |m - {k}| < |m| by {
        assert (m - {first}).Keys == m.Keys - {first};
        assert (m - {k}).Keys == m.Keys - {k};
        assert |m.Keys| == |m|;
      }
      SumRemove(m - {first}, k);
      SumRemove(m - {k}, first);
      assert m - {first} - {k} == m - {k} - {first};
    }
  }

  /** Setting one key moves the sum by exactly the change at that key. */
  lemma SumUpdate<K>(m: map<K, int>, k: K, v: int)
    ensures Sum(m[k := v]) == Sum(m) - Count(m, k) + v
  {
    var m' := m[k := v];
    SumRemove(m', k);
    assert m' - {k} == m - {k};
    if k in m {
      SumRemove(m, k);
    } else {
      assert m - {k} == m;
    }
  }

  /** A sum of non-negative values is at least each of them. */
  lemma {:induction false} SumBounds<K>(m: map<K, int>, k: K)
    requires forall j :: j in m ==> m[j] >= 0
    ensures Sum(m) >= Count(m, k) && Sum(m) >= 0
    decreases |m|
  {
    if m != map[] {
      var j :| j in m && (k in m ==> j == k);
      SumRemove(m, j);
      assert |m - {j}| < |m| by {
        assert (m - {j}).Keys == m.Keys - {j};
        assert |m.Keys| == |m|;
      }
      SumBounds(m - {j}, k);
    }
  }

  /** No element occurs twice. */
  predicate NoDup<T(==)>(s: seq<T>) {
    s == [] || (s[|s| - 1] !in s[..|s| - 1] && NoDup(s[..|s| - 1]))
  }

  lemma {:induction false} NoDupAt<T>(s: seq<T>, i: nat, j: nat)
    requires NoDup(s) && i < j < |s|
    ensures s[i] != s[j]
    decreases |s|
  {
    if j == |s| - 1 {
      assert s[i] in s[..j];
    } else {
      NoDupAt(s[..|s| - 1], i, j);
    }
  }

  lemma NoDupAppend<T>(s: seq<T>, x: T)
    requires NoDup(s) && x !in s
    ensures NoDup(s + [x])
  {
  }

  lemma {:induction false} NoDupRemove<T>(s: seq<T>, i: nat)
    requires NoDup(s) && i < |s|
    ensures NoDup(s[..i] + s[i + 1..]) && s[i] !in s[..i] + s[i + 1..]
    decreases |s|
  {
    var last := |s| - 1;
    if i == last {
      assert s[..i] + s[i + 1..] == s[..last];
    } else {
      var front := s[..last];
      NoDupRemove(front, i);
      NoDupAt(s, i, last);
      assert s[..i] + s[i + 1..] == front[..i] + front[i + 1..] + [s[last]];
      NoDupAppend(front[..i] + front[i + 1..], s[last]);
    }
  }
}
