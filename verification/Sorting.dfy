/** Stable sorting by a total preorder, and the lexicographic order on strings. */
module Sorting {

  ghost predicate TotalPreorder<T(!new)>(le: (T, T) -> bool) {
    && (forall x, y :: le(x, y) || le(y, x))
    && (forall x, y, z :: le(x, y) && le(y, z) ==> le(x, z))
  }

  predicate NoRepeats<T(==)>(s: seq<T>) {
    forall i, j | 0 <= i < j < |s| :: s[i] != s[j]
  }

  predicate Sorted<T>(s: seq<T>, le: (T, T) -> bool) {
    forall i, j | 0 <= i < j < |s| :: le(s[i], s[j])
  }

  /** Places `x` behind every element that is not larger. */
  function Insert<T>(s: seq<T>, x: T, le: (T, T) -> bool): seq<T> {
    if s == [] || le(s[|s| - 1], x) then s + [x]
    else Insert(s[..|s| - 1], x, le) + [s[|s| - 1]]
  }

  function Sort<T>(s: seq<T>, le: (T, T) -> bool): seq<T> {
    if s == [] then [] else Insert(Sort(s[..|s| - 1], le), s[|s| - 1], le)
  }

  lemma {:induction false} InsertMultiset<T>(s: seq<T>, x: T, le: (T, T) -> bool)
    ensures multiset(Insert(s, x, le)) == multiset(s) + multiset{x}
  {
    if !(s == [] || le(s[|s| - 1], x)) {
      InsertMultiset(s[..|s| - 1], x, le);
      assert s == s[..|s| - 1] + [s[|s| - 1]];
    }
  }

  lemma InsertMembers<T>(s: seq<T>, x: T, le: (T, T) -> bool)
    ensures forall y :: y in Insert(s, x, le) <==> y in s || y == x
  {
    InsertMultiset(s, x, le);
    forall y ensures y in Insert(s, x, le) <==> y in s || y == x {
      assert y in Insert(s, x, le) <==> y in multiset(Insert(s, x, le));
      assert y in s <==> y in multiset(s);
    }
  }

  lemma {:induction false} InsertSorted<T(!new)>(s: seq<T>, x: T, le: (T, T) -> bool)
    requires TotalPreorder(le) && Sorted(s, le)
    ensures Sorted(Insert(s, x, le), le)
  {
    if s == [] {
    } else if le(s[|s| - 1], x) {
      forall i | 0 <= i < |s| ensures le(s[i], x) {
        assert i < |s| - 1 ==> le(s[i], s[|s| - 1]);
      }
    } else {
      var front, last := s[..|s| - 1], s[|s| - 1];
      var t := Insert(front, x, le);
      InsertSorted(front, x, le);
      InsertMembers(front, x, le);
      forall i | 0 <= i < |t| ensures le(t[i], last) {
        assert t[i] in t;
        if t[i] != x {
          var k :| 0 <= k < |front| && front[k] == t[i];
          assert s[k] == t[i];
        }
      }
    }
  }

  lemma {:induction false} SortSorts<T(!new)>(s: seq<T>, le: (T, T) -> bool)
    requires TotalPreorder(le)
    ensures Sorted(Sort(s, le), le)
  {
    if s != [] {
      SortSorts(s[..|s| - 1], le);
      InsertSorted(Sort(s[..|s| - 1], le), s[|s| - 1], le);
    }
  }

  lemma {:induction false} SortMultiset<T>(s: seq<T>, le: (T, T) -> bool)
    ensures multiset(Sort(s, le)) == multiset(s)
  {
    if s != [] {
      SortMultiset(s[..|s| - 1], le);
      InsertMultiset(Sort(s[..|s| - 1], le), s[|s| - 1], le);
      assert s == s[..|s| - 1] + [s[|s| - 1]];
    }
  }

  lemma SortMembers<T>(s: seq<T>, le: (T, T) -> bool)
    ensures forall y :: y in Sort(s, le) <==> y in s
    ensures |Sort(s, le)| == |s|
  {
    SortMultiset(s, le);
    assert |Sort(s, le)| == |multiset(Sort(s, le))| == |multiset(s)| == |s|;
    forall y ensures y in Sort(s, le) <==> y in s {
      assert y in Sort(s, le) <==> y in multiset(Sort(s, le));
      assert y in s <==> y in multiset(s);
    }
  }

  /** Sorting leaves a sorted sequence alone. */
  lemma {:induction false} SortFixes<T>(s: seq<T>, le: (T, T) -> bool)
    requires Sorted(s, le)
    ensures Sort(s, le) == s
  {
    if s != [] {
      var n := |s| - 1;
      SortFixes(s[..n], le);
      assert s == s[..n] + [s[n]];
      if n > 0 {
        assert le(s[n - 1], s[n]);
      }
    }
  }

  ghost predicate AntisymmetricOn<T>(s: seq<T>, le: (T, T) -> bool) {
    forall x, y | x in s && y in s && le(x, y) && le(y, x) :: x == y
  }

  lemma LastIsGreatest<T>(s: seq<T>, x: T, le: (T, T) -> bool)
    requires Sorted(s, le) && x in s
    ensures x == s[|s| - 1] || le(x, s[|s| - 1])
  {
    var i :| 0 <= i < |s| && s[i] == x;
    assert i < |s| - 1 ==> le(s[i], s[|s| - 1]);
  }

  lemma DropLast<T>(s: seq<T>)
    requires s != []
    ensures multiset(s[..|s| - 1]) == multiset(s) - multiset{s[|s| - 1]}
  {
    assert s == s[..|s| - 1] + [s[|s| - 1]];
  }

  lemma PrefixFacts<T>(s: seq<T>, le: (T, T) -> bool, n: nat)
    requires n <= |s| && Sorted(s, le)
    ensures Sorted(s[..n], le)
    ensures AntisymmetricOn(s, le) ==> AntisymmetricOn(s[..n], le)
  {
  }

  lemma {:induction false} SameLast<T>(a: seq<T>, b: seq<T>, le: (T, T) -> bool)
    requires AntisymmetricOn(a, le)
    requires Sorted(a, le) && Sorted(b, le) && multiset(a) == multiset(b) && a != []
    ensures |a| == |b| && a[|a| - 1] == b[|b| - 1]
  {
    assert |a| == |multiset(a)| == |multiset(b)| == |b|;
    var x, y := a[|a| - 1], b[|b| - 1];
    assert x in multiset(b) && y in multiset(a);
    LastIsGreatest(a, y, le);
    LastIsGreatest(b, x, le);
  }

  lemma {:induction false} SameFront<T>(a: seq<T>, b: seq<T>, le: (T, T) -> bool, n: nat)
    requires AntisymmetricOn(a, le) && Sorted(a, le) && Sorted(b, le)
    requires n < |a| && n < |b| && multiset(a[..n + 1]) == multiset(b[..n + 1])
    ensures a[n] == b[n] && multiset(a[..n]) == multiset(b[..n])
  {
    var x, y := a[..n + 1], b[..n + 1];
    PrefixFacts(a, le, n + 1);
    PrefixFacts(b, le, n + 1);
    SameLast(x, y, le);
    DropLast(x);
    DropLast(y);
    assert a[..n] == x[..n] && b[..n] == y[..n];
  }

  lemma {:induction false} SamePrefix<T>(a: seq<T>, b: seq<T>, le: (T, T) -> bool, n: nat)
    requires AntisymmetricOn(a, le) && Sorted(a, le) && Sorted(b, le)
    requires n <= |a| && n <= |b| && multiset(a[..n]) == multiset(b[..n])
    ensures forall i | 0 <= i < n :: a[i] == b[i]
  {
    if n > 0 {
      SameFront(a, b, le, n - 1);
      SamePrefix(a, b, le, n - 1);
    }
  }

  /** Two sorted arrangements of the same elements coincide. */
  lemma SortedUnique<T>(a: seq<T>, b: seq<T>, le: (T, T) -> bool)
    requires AntisymmetricOn(a, le)
    requires Sorted(a, le) && Sorted(b, le) && multiset(a) == multiset(b)
    ensures a == b
  {
    assert |a| == |multiset(a)| == |multiset(b)| == |b|;
    assert a == a[..|a|] && b == b[..|a|];
    SamePrefix(a, b, le, |a|);
  }

  // ---------------------------------------------------------------- sequences without repeats

  lemma {:induction false} CountOfMember<T>(s: seq<T>, x: T)
    requires NoRepeats(s)
    ensures multiset(s)[x] == if x in s then 1 else 0
  {
    if s != [] {
      var n := |s| - 1;
      CountOfMember(s[..n], x);
      assert s == s[..n] + [s[n]];
    }
  }

  /** Without repeats, the members determine the multiset. */
  lemma SameMembersSameMultiset<T(!new)>(a: seq<T>, b: seq<T>)
    requires NoRepeats(a) && NoRepeats(b) && forall x :: x in a <==> x in b
    ensures multiset(a) == multiset(b)
  {
    forall x ensures multiset(a)[x] == multiset(b)[x] {
      CountOfMember(a, x);
      CountOfMember(b, x);
    }
  }

  // ---------------------------------------------------------------- separation

  /** No two positions hold elements related by `same`. */
  predicate Separated<T>(s: seq<T>, same: (T, T) -> bool) {
    forall i, j | 0 <= i < j < |s| :: !same(s[i], s[j])
  }

  lemma {:induction false} InsertSeparated<T>(s: seq<T>, x: T, le: (T, T) -> bool, same: (T, T) -> bool)
    requires forall y, z :: same(y, z) <==> same(z, y)
    requires Separated(Insert(s, x, le), same)
    ensures Separated(s, same)
    ensures forall y | y in s :: !same(y, x)
  {
    var t := Insert(s, x, le);
    if s == [] || le(s[|s| - 1], x) {
      assert forall i | 0 <= i < |s| :: t[i] == s[i];
      assert t[|s|] == x;
    } else {
      var front, last := s[..|s| - 1], s[|s| - 1];
      var u := Insert(front, x, le);
      assert t == u + [last];
      assert forall i | 0 <= i < |u| :: t[i] == u[i];
      InsertSeparated(front, x, le, same);
      InsertMembers(front, x, le);
      forall y | y in u ensures !same(y, last) {
        var k :| 0 <= k < |u| && u[k] == y;
        assert !same(t[k], t[|u|]);
      }
      assert x in u;
      assert s == front + [last];
      forall i | 0 <= i < |front| ensures !same(s[i], last) {
        assert front[i] in u;
      }
    }
  }

  lemma {:induction false} InsertKeepsSeparated<T(!new)>(s: seq<T>, x: T, le: (T, T) -> bool, same: (T, T) -> bool)
    requires forall y, z :: same(y, z) <==> same(z, y)
    requires Separated(s, same) && forall y | y in s :: !same(y, x)
    ensures Separated(Insert(s, x, le), same)
  {
    if !(s == [] || le(s[|s| - 1], x)) {
      var front, last := s[..|s| - 1], s[|s| - 1];
      var u := Insert(front, x, le);
      InsertKeepsSeparated(front, x, le, same);
      InsertMembers(front, x, le);
      forall i | 0 <= i < |u| ensures !same(u[i], last) {
        assert u[i] in u;
        if u[i] == x {
          assert last in s;
        } else {
          var k :| 0 <= k < |front| && front[k] == u[i];
          assert !same(s[k], s[|s| - 1]);
        }
      }
    }
  }

  lemma {:induction false} SortKeepsSeparated<T(!new)>(s: seq<T>, le: (T, T) -> bool, same: (T, T) -> bool)
    requires forall y, z :: same(y, z) <==> same(z, y)
    requires Separated(s, same)
    ensures Separated(Sort(s, le), same)
  {
    if s != [] {
      var n := |s| - 1;
      SortKeepsSeparated(s[..n], le, same);
      SortMembers(s[..n], le);
      forall y | y in Sort(s[..n], le) ensures !same(y, s[n]) {
        var k :| 0 <= k < n && s[..n][k] == y;
        assert !same(s[k], s[n]);
      }
      InsertKeepsSeparated(Sort(s[..n], le), s[n], le, same);
    }
  }

  lemma {:induction false} SortSeparated<T>(s: seq<T>, le: (T, T) -> bool, same: (T, T) -> bool)
    requires forall y, z :: same(y, z) <==> same(z, y)
    requires Separated(Sort(s, le), same)
    ensures Separated(s, same)
  {
    if s != [] {
      var n := |s| - 1;
      InsertSeparated(Sort(s[..n], le), s[n], le, same);
      SortSeparated(s[..n], le, same);
      SortMembers(s[..n], le);
      forall i | 0 <= i < n ensures !same(s[i], s[n]) {
        assert s[..n][i] in Sort(s[..n], le);
      }
      assert forall i | 0 <= i < n :: s[i] == s[..n][i];
    }
  }

  // ---------------------------------------------------------------- strings

  predicate StringLe(a: string, b: string) {
    a == [] || (b != [] && (a[0] < b[0] || (a[0] == b[0] && StringLe(a[1..], b[1..]))))
  }

  lemma StringLeTotal(a: string, b: string)
    ensures StringLe(a, b) || StringLe(b, a)
  {
  }

  lemma StringLeTransitive(a: string, b: string, c: string)
    requires StringLe(a, b) && StringLe(b, c)
    ensures StringLe(a, c)
  {
  }

  lemma {:induction false} StringLeAntisymmetric(a: string, b: string)
    requires StringLe(a, b) && StringLe(b, a)
    ensures a == b
  {
    if a != [] && b != [] {
      StringLeAntisymmetric(a[1..], b[1..]);
      assert a == [a[0]] + a[1..] && b == [b[0]] + b[1..];
    }
  }

  /** The order of dictionaries: a prefix comes first, otherwise the first difference decides. */
  lemma {:induction false} StringLeIsLexicographic(a: string, b: string)
    ensures StringLe(a, b) <==> a <= b || exists i :: 0 <= i < |a| && i < |b| && a[..i] == b[..i] && a[i] < b[i]
  {
    if a != [] && b != [] {
      if a[0] < b[0] {
        assert a[..0] == b[..0];
      } else if a[0] == b[0] {
        StringLeIsLexicographic(a[1..], b[1..]);
        assert a <= b <==> a[1..] <= b[1..];
        if i :| 0 <= i < |a[1..]| && i < |b[1..]| && a[1..][..i] == b[1..][..i] && a[1..][i] < b[1..][i] {
          assert a[..i + 1] == [a[0]] + a[1..][..i] && b[..i + 1] == [b[0]] + b[1..][..i];
          assert a[i + 1] < b[i + 1];
        }
        if i :| 0 <= i < |a| && i < |b| && a[..i] == b[..i] && a[i] < b[i] {
          assert i > 0;
          assert a[1..][..i - 1] == a[..i][1..] && b[1..][..i - 1] == b[..i][1..];
          assert a[1..][i - 1] < b[1..][i - 1];
        }
      } else {
        assert forall i | 0 < i <= |a| && i <= |b| :: a[..i][0] == a[0] && b[..i][0] == b[0];
      }
    }
  }

  lemma StringsAreAntisymmetric(s: seq<string>)
    ensures AntisymmetricOn(s, StringLe)
  {
    forall a, b | StringLe(a, b) && StringLe(b, a) ensures a == b {
      StringLeAntisymmetric(a, b);
    }
  }

  lemma StringLeIsTotalPreorder()
    ensures TotalPreorder(StringLe)
  {
    forall a, b ensures StringLe(a, b) || StringLe(b, a) {
      StringLeTotal(a, b);
    }
    forall a, b, c | StringLe(a, b) && StringLe(b, c) ensures StringLe(a, c) {
      StringLeTransitive(a, b, c);
    }
  }
}
