/**
 * Ruby's `sort` on strings and the comparison it uses. Two lists sort to the
 * same list exactly when they hold the same strings the same number of
 * times, which is what the lameness checks and the answer grouping rely on.
 */
module Sorting {
  import opened Lists

  /** Ruby's `a <= b` on strings: lexicographic, a prefix first. */
  predicate Below(a: string, b: string)
  {
    if a == [] then true
    else if b == [] then false
    else if a[0] != b[0] then a[0] < b[0]
    else Below(a[1..], b[1..])
  }

  lemma {:induction false} BelowTotal(a: string, b: string)
    ensures Below(a, b) || Below(b, a)
  {
    if a != [] && b != [] && a[0] == b[0] {
      BelowTotal(a[1..], b[1..]);
    }
  }

  lemma {:induction false} BelowAntisymmetric(a: string, b: string)
    requires Below(a, b) && Below(b, a)
    ensures a == b
  {
    if a != [] && b != [] {
      BelowAntisymmetric(a[1..], b[1..]);
      assert a == [a[0]] + a[1..] && b == [b[0]] + b[1..];
    }
  }

  lemma {:induction false} BelowTransitive(a: string, b: string, c: string)
    requires Below(a, b) && Below(b, c)
    ensures Below(a, c)
  {
    if a != [] && b != [] && c != [] && a[0] == b[0] && b[0] == c[0] {
      BelowTransitive(a[1..], b[1..], c[1..]);
    }
  }

  lemma {:induction false} BelowReflexive(a: string)
    ensures Below(a, a)
  {
    if a != [] {
      BelowReflexive(a[1..]);
    }
  }

  predicate SortedStrings(s: seq<string>)
  {
    forall i, j :: 0 <= i < j < |s| ==> Below(s[i], s[j])
  }

  /** The head of a sorted list is below everything in it. */
  lemma SortedHead(a: seq<string>, x: string)
    requires SortedStrings(a) && x in multiset(a)
    ensures Below(a[0], x)
  {
    var i :| 0 <= i < |a| && a[i] == x;
    if i == 0 {
      BelowReflexive(x);
    }
  }

  lemma SortedTail(a: seq<string>)
    requires SortedStrings(a) && a != []
    ensures SortedStrings(a[1..])
  {
    forall i, j | 0 <= i < j < |a| - 1 ensures Below(a[1..][i], a[1..][j]) {
      assert a[1..][i] == a[i + 1] && a[1..][j] == a[j + 1];
    }
  }

  /** A string below everything in a sorted list can go in front of it. */
  lemma ConsSorted(x: string, s: seq<string>)
    requires SortedStrings(s)
    requires forall y :: y in multiset(s) ==> Below(x, y)
    ensures SortedStrings([x] + s)
  {
    forall i, j | 0 <= i < j < |[x] + s| ensures Below(([x] + s)[i], ([x] + s)[j]) {
      if i == 0 {
        assert ([x] + s)[j] == s[j - 1] && s[j - 1] in multiset(s);
      } else {
        assert ([x] + s)[i] == s[i - 1] && ([x] + s)[j] == s[j - 1];
      }
    }
  }

  /** Insert `x` into a sorted list before the first element above it. */
  function Insert(x: string, s: seq<string>): (r: seq<string>)
    requires SortedStrings(s)
    ensures SortedStrings(r) && multiset(r) == multiset(s) + multiset{x}
  {
    if s == [] then [x]
    else if Below(x, s[0]) then
      assert forall y :: y in multiset(s) ==> Below(x, y) by {
        forall y | y in multiset(s) ensures Below(x, y) {
          SortedHead(s, y);
          BelowTransitive(x, s[0], y);
        }
      }
      ConsSorted(x, s);
      [x] + s
    else
      BelowTotal(x, s[0]);
      SortedTail(s);
      var t := Insert(x, s[1..]);
      assert s == [s[0]] + s[1..];
      assert forall y :: y in multiset(t) ==> Below(s[0], y) by {
        forall y | y in multiset(t) ensures Below(s[0], y) {
          if y != x {
            SortedHead(s, y);
          }
        }
      }
      ConsSorted(s[0], t);
      [s[0]] + t
  }

  /** Ruby's `sort` on strings. */
  function Sort(s: seq<string>): (r: seq<string>)
    ensures SortedStrings(r) && multiset(r) == multiset(s)
  {
    if s == [] then []
    else
      assert s == [s[0]] + s[1..];
      Insert(s[0], Sort(s[1..]))
  }

  /** Two sorted lists holding the same strings the same number of times are the same list. */
  lemma {:induction false} SortedUnique(a: seq<string>, b: seq<string>)
    requires SortedStrings(a) && SortedStrings(b) && multiset(a) == multiset(b)
    ensures a == b
  {
    if a != [] {
      assert b != [] by {
        assert a[0] in multiset(b);
      }
      assert a[0] == b[0] by {
        assert a[0] in multiset(b) && b[0] in multiset(a);
        SortedHead(a, b[0]);
        SortedHead(b, a[0]);
        BelowAntisymmetric(a[0], b[0]);
      }
      MultisetTail(a, b);
      SortedTail(a);
      SortedTail(b);
      SortedUnique(a[1..], b[1..]);
      assert a == [a[0]] + a[1..] && b == [b[0]] + b[1..];
    }
  }

  /** Sorting two lists gives the same list exactly when they hold the same strings the same number of times. */
  lemma SortAlikeIffSameStrings(a: seq<string>, b: seq<string>)
    ensures Sort(a) == Sort(b) <==> multiset(a) == multiset(b)
  {
    if multiset(a) == multiset(b) {
      SortedUnique(Sort(a), Sort(b));
    }
  }
}
