/** Small general-purpose definitions shared by the models. */
module Common {

  datatype Option<+T> = None | Some(value: T)

  /** Identifiers (UUIDs). Generated identifiers are fresh values. */
  type Id = nat

  /** A row's lease: who holds it and until when. NULL columns are `None`. */
  datatype Lease = Lease(owner: Id, expiresAt: int)

  /** Status column shared by the analytics outbox and the event outbox. */
  datatype DeliveryStatus = Pending | Claimed | Delivered | Dead

  function LowerChar(c: char): char {
    if 'A' <= c <= 'Z' then c - 'A' + 'a' else c
  }

  /** ASCII lower case. */
  function Lower(s: string): (r: string)
    ensures |r| == |s| && forall i :: 0 <= i < |s| ==> r[i] == LowerChar(s[i])
  {
    if s == "" then "" else [LowerChar(s[0])] + Lower(s[1..])
  }

  ghost predicate Distinct<T>(s: seq<T>) {
    forall i, j :: 0 <= i < j < |s| ==> s[i] != s[j]
  }

  /** An injection from a finite set into 1..n bounds the size of the set. */
  lemma {:induction false} InjectionBound<T>(s: set<T>, f: map<T, int>, n: nat)
    requires s <= f.Keys
    requires forall x :: x in s ==> 1 <= f[x] <= n
    requires forall x, y :: x in s && y in s && f[x] == f[y] ==> x == y
    ensures |s| <= n
    decreases n
  {
    if s != {} {
      var some :| some in s;
      assert 1 <= f[some] <= n;
      if x :| x in s && f[x] == n {
        var rest := s - {x};
        InjectionBound(rest, f, n - 1);
        assert s == rest + {x};
      } else {
        InjectionBound(s, f, n - 1);
      }
    }
  }

  lemma {:induction false} SubsetSize<T>(a: set<T>, b: set<T>)
    requires a <= b
    ensures |a| <= |b|
    decreases |a|
  {
    if x :| x in a {
      SubsetSize(a - {x}, b - {x});
    }
  }

  /** Sum of a weight over the values of a map. */
  ghost function Total<K, V>(m: map<K, V>, weight: V -> int): (sum: int)
    decreases |m|
  {
    if m == map[] then 0
    else
      var k :| k in m;
      assert |m - {k}| < |m| by { assert m.Keys == (m - {k}).Keys + {k}; }
      weight(m[k]) + Total(m - {k}, weight)
  }

  /** Any key may be taken out first. */
  lemma {:induction false} TotalRemove<K, V>(m: map<K, V>, weight: V -> int, k: K)
    requires k in m
    ensures Total(m, weight) == weight(m[k]) + Total(m - {k}, weight)
    decreases |m|
  {
    var first :| first in m && Total(m, weight) == weight(m[first]) + Total(m - {first}, weight);
    if first != k {
      assert m.Keys == (m - {first}).Keys + {first};
      assert m.Keys == (m - {k}).Keys + {k};
      TotalRemove(m - {first}, weight, k);
      TotalRemove(m - {k}, weight, first);
      assert (m - {first}) - {k} == (m - {k}) - {first};
    }
  }

  lemma {:induction false} TotalUpdate<K, V>(m: map<K, V>, weight: V -> int, k: K, v: V)
    ensures Total(m[k := v], weight) == Total(m, weight) + weight(v) - (if k in m then weight(m[k]) else 0)
  {
    TotalRemove(m[k := v], weight, k);
    if k in m {
      TotalRemove(m, weight, k);
      assert m[k := v] - {k} == m - {k};
    } else {
      assert m[k := v] - {k} == m;
    }
  }

  /** Pointwise comparison of two maps with the same keys. */
  lemma {:induction false} TotalCompare<K, V>(a: map<K, V>, b: map<K, V>, weight: V -> int)
    requires a.Keys == b.Keys
    requires forall k :: k in a ==> weight(a[k]) <= weight(b[k])
    ensures Total(a, weight) <= Total(b, weight)
    ensures (exists k :: k in a && weight(a[k]) < weight(b[k])) ==> Total(a, weight) < Total(b, weight)
    decreases |a|
  {
    if a != map[] {
      var k :| k in a && ((exists j :: j in a && weight(a[j]) < weight(b[j])) ==> weight(a[k]) < weight(b[k]));
      TotalRemove(a, weight, k);
      TotalRemove(b, weight, k);
      assert a.Keys == (a - {k}).Keys + {k};
      TotalCompare(a - {k}, b - {k}, weight);
    } else {
      assert b == map[];
    }
  }

  lemma {:induction false} TotalBound<K, V>(m: map<K, V>, weight: V -> int, bound: int)
    requires forall k :: k in m ==> 0 <= weight(m[k]) <= bound
    ensures 0 <= Total(m, weight) <= bound * |m|
    decreases |m|
  {
    if m != map[] {
      var k :| k in m;
      TotalRemove(m, weight, k);
      assert m.Keys == (m - {k}).Keys + {k};
      TotalBound(m - {k}, weight, bound);
      Distribute(bound, |m - {k}|);
    }
  }

  lemma Distribute(factor: int, n: int)
    ensures factor * (n + 1) == factor * n + factor
  {}

  lemma OneMore(n: int, factor: int)
    ensures n * factor == (n - 1) * factor + factor
  {}
}
