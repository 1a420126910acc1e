/** Byte-wise string order and the sort the territory index is written in. */
module Ordering {

  /** Strict lexicographic order, as `sort.Strings` compares. */
  predicate Below(a: string, b: string) {
    if b == "" then false
    else if a == "" then true
    else if a[0] != b[0] then a[0] < b[0]
    else Below(a[1..], b[1..])
  }

  /** The order said on characters: a proper prefix comes first, and otherwise the first
      position where the two differ decides. */
  ghost predicate Precedes(a: string, b: string) {
    exists n: nat :: n <= |a| && n < |b| && a[..n] == b[..n] && (n == |a| || a[n] < b[n])
  }

  lemma {:induction false} BelowMeansPrecedes(a: string, b: string)
    ensures Below(a, b) <==> Precedes(a, b)
  {
    if a == "" || b == "" {
      if b != "" {
        assert a[..0] == b[..0];
      }
    } else if a[0] != b[0] {
      if a[0] < b[0] {
        assert a[..0] == b[..0];
      }
      forall n: nat | 0 < n <= |a| && n < |b| ensures a[..n] != b[..n] {
        assert a[..n][0] != b[..n][0];
      }
    } else {
      BelowMeansPrecedes(a[1..], b[1..]);
      PrecedesTails(a, b);
    }
  }

  lemma PrecedesTails(a: string, b: string)
    requires a != "" && b != "" && a[0] == b[0]
    ensures Precedes(a, b) <==> Precedes(a[1..], b[1..])
  {
    var x, y := a[1..], b[1..];
    if Precedes(a, b) {
      var n: nat :| n <= |a| && n < |b| && a[..n] == b[..n] && (n == |a| || a[n] < b[n]);
      assert x[..n - 1] == a[..n][1..] && y[..n - 1] == b[..n][1..];
    }
    if Precedes(x, y) {
      var n: nat :| n <= |x| && n < |y| && x[..n] == y[..n] && (n == |x| || x[n] < y[n]);
      assert a[..n + 1] == [a[0]] + x[..n] && b[..n + 1] == [b[0]] + y[..n];
    }
  }

  predicate Sorted(s: seq<string>) {
    forall i, j :: 0 <= i < j < |s| ==> !Below(s[j], s[i])
  }

  predicate Distinct<T(==)>(s: seq<T>) {
    forall i, j :: 0 <= i < j < |s| ==> s[i] != s[j]
  }

  function Elements<T>(s: seq<T>): set<T> {
    set x | x in s
  }

  lemma {:induction false} BelowIrreflexive(a: string)
    ensures !Below(a, a)
  {
    if a == "" {
    } else {
      BelowIrreflexive(a[1..]);
    }
  }

  lemma {:induction false} BelowTransitive(a: string, b: string, c: string)
    requires Below(a, b) && Below(b, c)
    ensures Below(a, c)
  {
    if a != "" && a[0] == b[0] == c[0] {
      BelowTransitive(a[1..], b[1..], c[1..]);
    }
  }

  lemma {:induction false} BelowTotal(a: string, b: string)
    ensures a == b || Below(a, b) || Below(b, a)
  {
    if a != "" && b != "" && a[0] == b[0] {
      BelowTotal(a[1..], b[1..]);
      assert a == [a[0]] + a[1..] && b == [b[0]] + b[1..];
    }
  }

  lemma {:induction false} BelowAsymmetric(a: string, b: string)
    requires Below(a, b)
    ensures !Below(b, a)
  {
    if Below(b, a) {
      BelowTransitive(a, b, a);
      BelowIrreflexive(a);
    }
  }

  function Insert(x: string, s: seq<string>): (r: seq<string>)
    ensures multiset(r) == multiset(s) + multiset{x}
  {
    if s == [] then [x]
    else if Below(s[0], x) then
      assert s == [s[0]] + s[1..];
      [s[0]] + Insert(x, s[1..])
    else [x] + s
  }

  /** What `sort.Strings` leaves behind. */
  function Sort(s: seq<string>): (r: seq<string>)
    ensures multiset(r) == multiset(s)
  {
    if s == [] then []
    else
      assert s == [s[0]] + s[1..];
      Insert(s[0], Sort(s[1..]))
  }

  lemma {:induction false} InsertKeepsSorted(x: string, s: seq<string>)
    requires Sorted(s)
    ensures Sorted(Insert(x, s))
  {
    if s == [] {
    } else if Below(s[0], x) {
      var tail := Insert(x, s[1..]);
      InsertKeepsSorted(x, s[1..]);
      BelowAsymmetric(s[0], x);
      forall j | 0 <= j < |tail| ensures !Below(tail[j], s[0]) {
        assert tail[j] in multiset(tail);
        assert tail[j] == x || tail[j] in s[1..];
      }
    } else {
      forall j | 0 <= j < |s| ensures !Below(s[j], x) {
        if Below(s[j], x) {
          BelowTotal(s[0], x);
          if s[0] != x {
            BelowTransitive(s[j], x, s[0]);
          }
        }
      }
    }
  }

  lemma {:induction false} SortSorts(s: seq<string>)
    ensures Sorted(Sort(s))
  {
    if s == [] {
    } else {
      SortSorts(s[1..]);
      InsertKeepsSorted(s[0], Sort(s[1..]));
    }
  }

  lemma SameMembers<T>(s: seq<T>, r: seq<T>)
    requires multiset(s) == multiset(r)
    ensures Elements(s) == Elements(r)
  {
    forall x ensures x in s <==> x in r {
      assert x in multiset(s) <==> x in multiset(r);
    }
  }

  lemma {:induction false} DistinctCount<T>(s: seq<T>)
    requires Distinct(s)
    ensures forall x :: multiset(s)[x] <= 1
  {
    if s == [] {
    } else {
      var front := s[..|s| - 1];
      assert s == front + [s[|s| - 1]];
      DistinctCount(front);
    }
  }

  lemma {:induction false} DistinctFromCount<T>(s: seq<T>)
    requires forall x :: multiset(s)[x] <= 1
    ensures Distinct(s)
  {
    forall i, j | 0 <= i < j < |s| ensures s[i] != s[j] {
      assert s == s[..j] + [s[j]] + s[j + 1..];
      assert multiset(s)[s[j]] <= 1;
      assert s[j] !in s[..j];
      assert s[..j][i] == s[i];
    }
  }

  /** Two distinct sorted lists over the same members are the same list. */
  lemma {:induction false} SortedUnique(s: seq<string>, r: seq<string>)
    requires Sorted(s) && Distinct(s) && Sorted(r) && Distinct(r)
    requires Elements(s) == Elements(r)
    ensures s == r
  {
    if s == [] {
      assert forall i :: 0 <= i < |r| ==> r[i] in Elements(r);
    } else {
      assert s[0] in Elements(s);
      assert s[0] in r;
      assert r[0] in Elements(r);
      assert r[0] in s;
      BelowTotal(s[0], r[0]);
      assert s[0] == r[0];
      var a, b := s[1..], r[1..];
      forall x ensures x in a <==> x in b {
        if x in a { assert x in Elements(s) && x != s[0]; }
        if x in b { assert x in Elements(r) && x != r[0]; }
      }
      SortedUnique(a, b);
      assert s == [s[0]] + a && r == [r[0]] + b;
    }
  }

  ghost function Listing(s: set<string>): (r: seq<string>)
    ensures Elements(r) == s && Distinct(r)
  {
    if s == {} then []
    else
      var x :| x in s;
      var rest := Listing(s - {x});
      assert forall y :: y in rest <==> y in Elements(rest);
      [x] + rest
  }

  /** The sorted list of a set of territories. */
  ghost function SortedOf(s: set<string>): (r: seq<string>)
    ensures Elements(r) == s && Distinct(r) && Sorted(r)
  {
    var l := Listing(s);
    SortSorts(l);
    SameMembers(l, Sort(l));
    DistinctCount(l);
    DistinctFromCount(Sort(l));
    Sort(l)
  }

  /** The sorted list of a set ascends strictly. */
  lemma SortedAscends(s: set<string>, i: nat, j: nat)
    requires i < j < |SortedOf(s)|
    ensures Precedes(SortedOf(s)[i], SortedOf(s)[j])
  {
    BelowTotal(SortedOf(s)[i], SortedOf(s)[j]);
    BelowMeansPrecedes(SortedOf(s)[i], SortedOf(s)[j]);
  }

  /** Sorting any distinct list gives the one sorted list of its members,
      whatever order the members arrived in. */
  lemma SortIsCanonical(s: seq<string>)
    requires Distinct(s)
    ensures Sort(s) == SortedOf(Elements(s))
  {
    SortSorts(s);
    SameMembers(s, Sort(s));
    DistinctCount(s);
    DistinctFromCount(Sort(s));
    SortedUnique(Sort(s), SortedOf(Elements(s)));
  }
}
