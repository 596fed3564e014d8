/**
 * The order JavaScript's default `Array.prototype.sort` puts strings in:
 * code unit by code unit, a proper prefix first. `Sort` is the sorted
 * permutation of a list of strings, which is unique for this total order.
 */
module StringOrder {

  /** `a` sorts no later than `b`. */
  predicate Below(a: string, b: string)
  {
    a == [] || (b != [] && (a[0] < b[0] || (a[0] == b[0] && Below(a[1..], b[1..]))))
  }

  lemma {:induction false} BelowTotal(a: string, b: string)
    ensures Below(a, b) || Below(b, a)
  {
    if a != [] && b != [] && a[0] == b[0] {
      BelowTotal(a[1..], b[1..]);
    }
  }

  lemma {:induction false} BelowAntisymmetric(a: string, b: string)
    requires Below(a, b) && Below(b, a)
    ensures a == b
  {
    if a != [] && b != [] {
      BelowAntisymmetric(a[1..], b[1..]);
      assert a == [a[0]] + a[1..] && b == [b[0]] + b[1..];
    }
  }

  lemma {:induction false} BelowTransitive(a: string, b: string, c: string)
    requires Below(a, b) && Below(b, c)
    ensures Below(a, c)
  {
    if a != [] && b != [] && c != [] && a[0] == b[0] && b[0] == c[0] {
      BelowTransitive(a[1..], b[1..], c[1..]);
    }
  }

  predicate Sorted(s: seq<string>)
  {
    forall i, j :: 0 <= i < j < |s| ==> Below(s[i], s[j])
  }

  /** Puts `x` in front of the first element it sorts below. */
  function InsertSorted(x: string, s: seq<string>): (r: seq<string>)
    ensures multiset(r) == multiset(s) + multiset{x}
    ensures |r| == |s| + 1
  {
    if s == [] then [x]
    else if Below(x, s[0]) then [x] + s
    else
      assert s == [s[0]] + s[1..];
      [s[0]] + InsertSorted(x, s[1..])
  }

  /** Insertion sort: the specification of `sort()` on strings. */
  function Sort(s: seq<string>): (r: seq<string>)
    ensures multiset(r) == multiset(s)
    ensures |r| == |s|
  {
    if s == [] then []
    else
      assert s == [s[0]] + s[1..];
      InsertSorted(s[0], Sort(s[1..]))
  }

  /** A head that sorts below every element of a sorted tail gives a sorted list. */
  lemma SortedCons(h: string, t: seq<string>)
    requires Sorted(t) && forall j :: 0 <= j < |t| ==> Below(h, t[j])
    ensures Sorted([h] + t)
  {
    var r := [h] + t;
    forall i, j | 0 <= i < j < |r| ensures Below(r[i], r[j]) {
      assert r[j] == t[j - 1];
      if i > 0 {
        assert r[i] == t[i - 1];
      }
    }
  }

  /** Every element of a list with `x` inserted is `x` or an element of the list. */
  lemma InsertSortedMembers(x: string, s: seq<string>, y: string)
    requires y in InsertSorted(x, s)
    ensures y == x || y in s
  {
    assert y in multiset(InsertSorted(x, s));
  }

  lemma {:induction false} InsertSortedSorted(x: string, s: seq<string>)
    requires Sorted(s)
    ensures Sorted(InsertSorted(x, s))
  {
    if s == [] {
    } else if Below(x, s[0]) {
      forall j | 0 <= j < |s| ensures Below(x, s[j]) {
        if j > 0 {
          BelowTransitive(x, s[0], s[j]);
        }
      }
      SortedCons(x, s);
    } else {
      SortedTail(s);
      InsertSortedSorted(x, s[1..]);
      var rest := InsertSorted(x, s[1..]);
      BelowTotal(x, s[0]);
      forall j | 0 <= j < |rest| ensures Below(s[0], rest[j]) {
        assert rest[j] in rest;
        InsertSortedMembers(x, s[1..], rest[j]);
        if rest[j] != x {
          var k :| 0 <= k < |s[1..]| && s[1..][k] == rest[j];
          assert s[k + 1] == rest[j];
        }
      }
      SortedCons(s[0], rest);
    }
  }

  /** The result of `Sort` is sorted. */
  lemma {:induction false} SortSorted(s: seq<string>)
    ensures Sorted(Sort(s))
  {
    if s != [] {
      SortSorted(s[1..]);
      InsertSortedSorted(s[0], Sort(s[1..]));
    }
  }

  lemma SortedTail(a: seq<string>)
    requires Sorted(a) && a != []
    ensures Sorted(a[1..])
  {
    forall i, j | 0 <= i < j < |a[1..]| ensures Below(a[1..][i], a[1..][j]) {
      assert a[1..][i] == a[i + 1] && a[1..][j] == a[j + 1];
    }
  }

  /** The first element of a sorted list sorts below every element of it. */
  lemma SortedFirst(a: seq<string>, x: string)
    requires Sorted(a) && x in a
    ensures Below(a[0], x)
  {
    var i :| 0 <= i < |a| && a[i] == x;
    if i == 0 {
      BelowTotal(x, x);
    }
  }

  /** Any two sorted arrangements of the same strings are the same list, so `Sort` agrees with every correct sort. */
  lemma {:induction false} SortedUnique(a: seq<string>, b: seq<string>)
    requires Sorted(a) && Sorted(b) && multiset(a) == multiset(b)
    ensures a == b
  {
    if a == [] {
      assert |b| == |multiset(b)| == 0;
    } else {
      assert a[0] in multiset(b);
      assert b != [];
      assert b[0] in multiset(a);
      SortedFirst(a, b[0]);
      SortedFirst(b, a[0]);
      BelowAntisymmetric(a[0], b[0]);
      MultisetTail(a);
      MultisetTail(b);
      SortedTail(a);
      SortedTail(b);
      SortedUnique(a[1..], b[1..]);
    }
  }

  lemma MultisetTail(a: seq<string>)
    requires a != []
    ensures multiset(a[1..]) == multiset(a) - multiset{a[0]}
  {
    assert a == [a[0]] + a[1..];
  }

  /** A string sorts before every longer string it is a prefix of, and not after it. */
  lemma {:induction false} BelowPrefix(a: string, t: string)
    requires t != []
    ensures Below(a, a + t) && !Below(a + t, a)
  {
    if a != [] {
      BelowPrefix(a[1..], t);
      assert (a + t)[0] == a[0] && (a + t)[1..] == a[1..] + t;
    }
  }

  /** Sorting two strings. */
  lemma SortTwo(x: string, y: string)
    ensures Sort([x, y]) == if Below(x, y) then [x, y] else [y, x]
  {
    assert [x, y][0] == x && [x, y][1..] == [y];
    assert Sort([y]) == [y] by {
      assert [y][1..] == [];
    }
    assert Sort([x, y]) == InsertSorted(x, [y]);
    if !Below(x, y) {
      assert [y][1..] == [];
      assert InsertSorted(x, [y]) == [y] + InsertSorted(x, []);
    }
  }
}
