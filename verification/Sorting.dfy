/** Sorting by a comparison that is a strict order on what is sorted. */
module Sorting {
  import opened Common

  ghost predicate StrictOn<T>(before: (T, T) -> bool, s: set<T>) {
    && (forall a :: a in s ==> !before(a, a))
    && (forall a, b :: a in s && b in s && a != b ==> before(a, b) || before(b, a))
    && (forall a, b, c :: a in s && b in s && c in s && before(a, b) && before(b, c) ==> before(a, c))
  }

  ghost predicate Ascending<T>(before: (T, T) -> bool, s: seq<T>) {
    forall i, j :: 0 <= i < j < |s| ==> before(s[i], s[j])
  }

  ghost function Elements<T>(s: seq<T>): set<T> {
    set x | x in s
  }

  function Insert<T(!new)>(before: (T, T) -> bool, x: T, s: seq<T>): (r: seq<T>)
    ensures forall y :: y in r <==> y == x || y in s
  {
    if s == [] then [x]
    else if before(x, s[0]) then [x] + s
    else [s[0]] + Insert(before, x, s[1..])
  }

  function Sort<T(!new)>(before: (T, T) -> bool, s: seq<T>): (r: seq<T>)
    ensures forall y :: y in r <==> y in s
  {
    if s == [] then [] else Insert(before, s[0], Sort(before, s[1..]))
  }

  lemma {:induction false} InsertAscends<T(!new)>(before: (T, T) -> bool, x: T, s: seq<T>, all: set<T>)
    requires StrictOn(before, all) && x in all && Elements(s) <= all && x !in s && Ascending(before, s)
    ensures Ascending(before, Insert(before, x, s))
  {
    if s != [] {
      assert s[0] in s;
      if before(x, s[0]) {
        forall i | 0 <= i < |s| ensures before(x, s[i]) {
          assert s[i] in s;
        }
      } else {
        forall y | y in s[1..] ensures y in s && before(s[0], y) {
          var i :| 0 <= i < |s| - 1 && s[1..][i] == y;
          assert s[i + 1] == y;
        }
        InsertAscends(before, x, s[1..], all);
        var rest := Insert(before, x, s[1..]);
        forall i | 0 <= i < |rest| ensures before(s[0], rest[i]) {
          assert rest[i] in rest;
        }
      }
    }
  }

  lemma {:induction false} SortAscends<T(!new)>(before: (T, T) -> bool, s: seq<T>)
    requires StrictOn(before, Elements(s)) && Distinct(s)
    ensures Ascending(before, Sort(before, s))
  {
    if s != [] {
      assert StrictOn(before, Elements(s[1..])) by {
        assert Elements(s[1..]) <= Elements(s);
      }
      SortAscends(before, s[1..]);
      assert s[0] !in s[1..];
      InsertAscends(before, s[0], Sort(before, s[1..]), Elements(s));
    }
  }

  lemma AscendingDistinct<T>(before: (T, T) -> bool, s: seq<T>)
    requires StrictOn(before, Elements(s)) && Ascending(before, s)
    ensures Distinct(s)
  {
    forall i, j | 0 <= i < j < |s| ensures s[i] != s[j] {
      assert s[i] in Elements(s);
    }
  }

  lemma {:induction false} SeqSize<T(!new)>(s: seq<T>)
    requires Distinct(s)
    ensures |Elements(s)| == |s|
  {
    if s != [] {
      SeqSize(s[1..]);
      assert Elements(s) == Elements(s[1..]) + {s[0]};
    } else {
      assert Elements(s) == {};
    }
  }

  /** The set and the order determine the sequence. */
  lemma {:induction false} AscendingUnique<T(!new)>(before: (T, T) -> bool, a: seq<T>, b: seq<T>)
    requires StrictOn(before, Elements(a)) && Elements(a) == Elements(b)
    requires Ascending(before, a) && Ascending(before, b)
    ensures a == b
  {
    AscendingDistinct(before, a);
    AscendingDistinct(before, b);
    SeqSize(a);
    SeqSize(b);
    if a != [] {
      assert a[0] in Elements(a) && b[0] in Elements(b);
      var i :| 0 <= i < |a| && a[i] == b[0];
      var j :| 0 <= j < |b| && b[j] == a[0];
      assert a[0] == b[0];
      Tails(before, a);
      Tails(before, b);
      AscendingUnique(before, a[1..], b[1..]);
    }
  }

  lemma Tails<T(!new)>(before: (T, T) -> bool, s: seq<T>)
    requires StrictOn(before, Elements(s)) && Ascending(before, s) && s != []
    ensures Elements(s[1..]) == Elements(s) - {s[0]} && Ascending(before, s[1..]) && StrictOn(before, Elements(s[1..]))
  {
    assert s == [s[0]] + s[1..];
    forall x | x in s[1..] ensures x != s[0] && x in s {
      var i :| 0 <= i < |s| - 1 && s[1..][i] == x;
      assert before(s[0], s[i + 1]) && s[0] in Elements(s);
    }
  }
}
