/**
  The two order algorithms of the legacy import: rebuilding the replay order from a possibly
  damaged one, and evicting the oldest entries that are not pending.
 */
module LegacyOrder {
  import opened Sorting

  function Elements(s: seq<string>): set<string> {
    set k | k in s
  }

  // ---------------------------------------------------------------- rebuilding

  /** The first occurrences of the known keys. */
  function FirstOccurrences(original: seq<string>, keys: set<string>): (kept: seq<string>) {
    if original == [] then []
    else
      var kept := FirstOccurrences(original[..|original| - 1], keys);
      var key := original[|original| - 1];
      if key in keys && key !in kept then kept + [key] else kept
  }

  lemma {:induction false} FirstOccurrencesFacts(original: seq<string>, keys: set<string>)
    ensures NoRepeats(FirstOccurrences(original, keys))
    ensures forall k :: k in FirstOccurrences(original, keys) <==> k in original && k in keys
  {
    if original != [] {
      FirstOccurrencesFacts(original[..|original| - 1], keys);
      assert original == original[..|original| - 1] + [original[|original| - 1]];
    }
  }

  /** The first position of a key. */
  function FirstIndex(s: seq<string>, k: string): (i: nat)
    requires k in s
    ensures i < |s| && s[i] == k && forall j | 0 <= j < i :: s[j] != k
  {
    if s[0] == k then 0 else 1 + FirstIndex(s[1..], k)
  }

  /** Surviving keys are in the order in which they first appeared. */
  lemma {:induction false} FirstOccurrencesInOrder(original: seq<string>, keys: set<string>, i: nat, j: nat)
    requires i < j < |FirstOccurrences(original, keys)|
    ensures var kept := FirstOccurrences(original, keys);
            && kept[i] in original && kept[j] in original
            && FirstIndex(original, kept[i]) < FirstIndex(original, kept[j])
  {
    var n := |original| - 1;
    var kept, before := FirstOccurrences(original, keys), FirstOccurrences(original[..n], keys);
    FirstOccurrencesFacts(original, keys);
    FirstOccurrencesFacts(original[..n], keys);
    assert kept[i] in kept && kept[j] in kept;
    assert kept[i] == before[i] && before[i] in before;
    FirstIndexGrows(original, kept[i]);
    if j < |before| {
      assert before[j] in before;
      FirstOccurrencesInOrder(original[..n], keys, i, j);
      FirstIndexGrows(original, kept[j]);
    } else {
      assert kept[j] == original[n] && kept[j] !in original[..n];
      assert forall f | 0 <= f < n :: original[f] == original[..n][f] && original[..n][f] in original[..n];
    }
  }

  lemma FirstIndexGrows(s: seq<string>, k: string)
    requires s != [] && k in s[..|s| - 1]
    ensures FirstIndex(s, k) == FirstIndex(s[..|s| - 1], k)
  {
    var front := s[..|s| - 1];
    assert s[FirstIndex(front, k)] == k;
    assert forall i | 0 <= i < |front| :: front[i] == s[i];
  }

  /** The known keys in their surviving order, followed by the sorted rest: the value rebuild_order leaves. */
  ghost predicate IsRebuilt(original: seq<string>, keys: set<string>, order: seq<string>) {
    var kept := FirstOccurrences(original, keys);
    && kept <= order
    && NoRepeats(order)
    && Elements(order) == keys
    && Sorted(order[|kept|..], StringLe)
  }

  /** The rebuilt order is unique. */
  lemma RebuiltIsUnique(original: seq<string>, keys: set<string>, a: seq<string>, b: seq<string>)
    requires IsRebuilt(original, keys, a) && IsRebuilt(original, keys, b)
    ensures a == b
  {
    var kept := FirstOccurrences(original, keys);
    var ta, tb := a[|kept|..], b[|kept|..];
    TailsAgree(kept, a, b);
    StringsAreAntisymmetric(ta);
    assert forall k :: k in ta <==> k in Elements(ta);
    assert forall k :: k in tb <==> k in Elements(tb);
    SameMembersSameMultiset(ta, tb);
    SortedUnique(ta, tb, StringLe);
    assert a == kept + ta && b == kept + tb;
  }

  lemma TailsAgree(kept: seq<string>, a: seq<string>, b: seq<string>)
    requires kept <= a && kept <= b && NoRepeats(a) && NoRepeats(b) && Elements(a) == Elements(b)
    ensures NoRepeats(a[|kept|..]) && NoRepeats(b[|kept|..])
    ensures Elements(a[|kept|..]) == Elements(b[|kept|..])
  {
    TailWithin(kept, a, b);
    TailWithin(kept, b, a);
  }

  lemma TailWithin(kept: seq<string>, a: seq<string>, b: seq<string>)
    requires kept <= a && kept <= b && NoRepeats(a) && NoRepeats(b) && Elements(a) == Elements(b)
    ensures Elements(a[|kept|..]) <= Elements(b[|kept|..])
  {
    var ta, tb := a[|kept|..], b[|kept|..];
    forall k | k in ta ensures k in tb {
      var i :| 0 <= i < |ta| && ta[i] == k;
      assert a[|kept| + i] == k;
      assert k in Elements(a);
      var j :| 0 <= j < |b| && b[j] == k;
      assert forall m | 0 <= m < |kept| :: kept[m] == a[m] && kept[m] == b[m];
      assert j >= |kept|;
      assert tb[j - |kept|] == k;
    }
  }

  /** An order that already lists every key once is left alone. */
  lemma RebuiltFixes(order: seq<string>, keys: set<string>)
    requires NoRepeats(order) && Elements(order) == keys
    ensures IsRebuilt(order, keys, order)
  {
    FirstOccurrencesAll(order, keys, |order|);
    assert order[..|order|] == order;
  }

  lemma {:induction false} FirstOccurrencesAll(order: seq<string>, keys: set<string>, n: nat)
    requires NoRepeats(order) && n <= |order| && forall k | k in order :: k in keys
    ensures FirstOccurrences(order[..n], keys) == order[..n]
  {
    if n > 0 {
      FirstOccurrencesAll(order, keys, n - 1);
      assert order[..n][..n - 1] == order[..n - 1];
      assert order[..n] == order[..n - 1] + [order[n - 1]];
      assert order[n - 1] in order;
    }
  }

  /** The loops of rebuild_order. */
  method Rebuild(original: seq<string>, keys: set<string>) returns (order: seq<string>)
    ensures IsRebuilt(original, keys, order)
  {
    order := [];
    for i := 0 to |original|
      invariant order == FirstOccurrences(original[..i], keys)
    {
      assert original[..i + 1][..i] == original[..i];
      if original[i] in keys && original[i] !in order {
        order := order + [original[i]];
      }
    }
    assert original[..|original|] == original;
    FirstOccurrencesFacts(original, keys);
    var missing := Enumerate(keys - Elements(order));
    SortMembers(missing, StringLe);
    assert Elements(Sort(missing, StringLe)) == Elements(missing);
    StringLeIsTotalPreorder();
    SortSorts(missing, StringLe);
    SortKeepsNoRepeats(missing);
    JoinedFacts(order, Sort(missing, StringLe));
    order := order + Sort(missing, StringLe);
  }

  lemma JoinedFacts(a: seq<string>, b: seq<string>)
    requires NoRepeats(a) && NoRepeats(b) && Elements(a) !! Elements(b)
    ensures NoRepeats(a + b) && Elements(a + b) == Elements(a) + Elements(b)
  {
    var s := a + b;
    forall i, j | 0 <= i < j < |s| ensures s[i] != s[j] {
      if i < |a| && |a| <= j {
        assert s[i] in Elements(a) && s[j] in Elements(b);
      }
    }
  }

  lemma SortKeepsNoRepeats(s: seq<string>)
    requires NoRepeats(s)
    ensures NoRepeats(Sort(s, StringLe))
  {
    var t := Sort(s, StringLe);
    SortMultiset(s, StringLe);
    forall i, j | 0 <= i < j < |t| ensures t[i] != t[j] {
      CountOfMember(s, t[i]);
      if t[i] == t[j] {
        RepeatCounts(t, i, j);
      }
    }
  }

  lemma RepeatCounts(t: seq<string>, i: nat, j: nat)
    requires i < j < |t| && t[i] == t[j]
    ensures multiset(t)[t[i]] >= 2
  {
    assert t == t[..j] + [t[j]] + t[j + 1..];
    assert t[..j][i] == t[i];
    assert multiset(t[..j])[t[i]] >= 1;
  }

  method Enumerate(s: set<string>) returns (list: seq<string>)
    ensures NoRepeats(list) && Elements(list) == s
  {
    list := [];
    var todo := s;
    while todo != {}
      invariant todo <= s && NoRepeats(list) && Elements(list) == s - todo
      decreases todo
    {
      var k :| k in todo;
      assert k !in Elements(list);
      JoinedFacts(list, [k]);
      list := list + [k];
      todo := todo - {k};
    }
  }

  // ---------------------------------------------------------------- eviction

  /** `order` without the first `n` of its evictable keys. */
  function EvictFirst(order: seq<string>, evictable: set<string>, n: nat): seq<string> {
    if order == [] || n == 0 then order
    else if order[0] in evictable then EvictFirst(order[1..], evictable, n - 1)
    else [order[0]] + EvictFirst(order[1..], evictable, n)
  }

  /** How many keys of `order` may not be evicted. */
  function Pinned(order: seq<string>, evictable: set<string>): nat {
    if order == [] then 0 else (if order[0] in evictable then 0 else 1) + Pinned(order[1..], evictable)
  }

  /** The first evictable position, or the length if there is none. */
  function FirstEvictable(order: seq<string>, evictable: set<string>): (p: nat)
    ensures p <= |order|
    ensures forall i | 0 <= i < p :: order[i] !in evictable
    ensures p < |order| ==> order[p] in evictable
  {
    if order == [] || order[0] in evictable then 0 else 1 + FirstEvictable(order[1..], evictable)
  }

  function RemoveAt(order: seq<string>, p: nat): seq<string>
    requires p < |order|
  {
    order[..p] + order[p + 1..]
  }

  /** Evicting the first evictable key, then `n` more, evicts `n + 1`. */
  lemma {:induction false} EvictOne(order: seq<string>, evictable: set<string>, n: nat)
    requires FirstEvictable(order, evictable) < |order|
    ensures var rest := RemoveAt(order, FirstEvictable(order, evictable));
            && EvictFirst(order, evictable, n + 1) == EvictFirst(rest, evictable, n)
            && Pinned(rest, evictable) == Pinned(order, evictable)
  {
    var p := FirstEvictable(order, evictable);
    var rest := RemoveAt(order, p);
    if order[0] in evictable {
      assert rest == order[1..];
    } else {
      EvictOne(order[1..], evictable, n);
      assert rest[1..] == RemoveAt(order[1..], p - 1);
      assert rest[0] == order[0];
      if n == 0 {
        assert [order[0]] + RemoveAt(order[1..], p - 1) == rest;
      }
    }
  }

  lemma {:induction false} PinnedBound(order: seq<string>, evictable: set<string>)
    ensures Pinned(order, evictable) <= |order|
    ensures Pinned(order, evictable) == |order| <==> FirstEvictable(order, evictable) == |order|
  {
    if order != [] {
      PinnedBound(order[1..], evictable);
    }
  }

  /** The pinned keys of an order without repeats, counted as a set. */
  lemma {:induction false} PinnedCounts(order: seq<string>, evictable: set<string>)
    requires NoRepeats(order)
    ensures Pinned(order, evictable) == |Elements(order) - evictable|
  {
    if order != [] {
      PinnedCounts(order[1..], evictable);
      assert order[0] !in order[1..];
      assert order == [order[0]] + order[1..];
      var rest := Elements(order[1..]) - evictable;
      assert Elements(order) - evictable == if order[0] in evictable then rest else rest + {order[0]};
    }
  }

  /** Eviction is a filter: pinned keys all stay, evicted ones are evictable, nothing is reordered or duplicated. */
  lemma {:induction false} EvictFacts(order: seq<string>, evictable: set<string>, n: nat)
    requires NoRepeats(order)
    ensures var rest := EvictFirst(order, evictable, n);
            && NoRepeats(rest)
            && (forall k :: k in rest ==> k in order)
            && (forall k :: k in order && k !in evictable ==> k in rest)
            && (|order| - Pinned(order, evictable) >= n ==> |rest| == |order| - n)
  {
    if order != [] && n > 0 {
      assert order == [order[0]] + order[1..];
      PinnedBound(order[1..], evictable);
      if order[0] in evictable {
        EvictFacts(order[1..], evictable, n - 1);
      } else {
        EvictFacts(order[1..], evictable, n);
      }
    }
  }

  /** The oldest go first: an evicted key stood before every evictable key that stays. */
  lemma {:induction false} EvictsOldest(order: seq<string>, evictable: set<string>, n: nat, a: nat, b: nat)
    requires NoRepeats(order) && a < |order| && b < |order|
    requires order[a] !in EvictFirst(order, evictable, n)
    requires order[b] in evictable && order[b] in EvictFirst(order, evictable, n)
    ensures a < b
  {
    if order != [] && n > 0 {
      var rest := order[1..];
      var m := if order[0] in evictable then n - 1 else n;
      assert order == [order[0]] + rest;
      EvictFacts(rest, evictable, m);
      if a > 0 && b > 0 {
        assert rest[a - 1] == order[a] && rest[b - 1] == order[b];
        EvictsOldest(rest, evictable, m, a - 1, b - 1);
      }
    }
  }

  /** Relative order survives: whatever precedes in the result preceded in the input. */
  lemma {:induction false} EvictKeepsOrder(order: seq<string>, evictable: set<string>, n: nat, i: nat, j: nat)
      returns (a: nat, b: nat)
    requires i < j < |EvictFirst(order, evictable, n)|
    ensures a < b < |order|
    ensures order[a] == EvictFirst(order, evictable, n)[i] && order[b] == EvictFirst(order, evictable, n)[j]
  {
    if order == [] || n == 0 {
      a, b := i, j;
    } else if order[0] in evictable {
      a, b := EvictKeepsOrder(order[1..], evictable, n - 1, i, j);
      a, b := a + 1, b + 1;
    } else if i == 0 {
      a := 0;
      b := EvictedFrom(order[1..], evictable, n, j - 1);
      b := b + 1;
    } else {
      a, b := EvictKeepsOrder(order[1..], evictable, n, i - 1, j - 1);
      a, b := a + 1, b + 1;
    }
  }

  lemma {:induction false} EvictedFrom(order: seq<string>, evictable: set<string>, n: nat, j: nat) returns (b: nat)
    requires j < |EvictFirst(order, evictable, n)|
    ensures b < |order| && order[b] == EvictFirst(order, evictable, n)[j]
  {
    if order == [] || n == 0 {
      b := j;
    } else if order[0] in evictable {
      b := EvictedFrom(order[1..], evictable, n - 1, j);
      b := b + 1;
    } else if j == 0 {
      b := 0;
    } else {
      b := EvictedFrom(order[1..], evictable, n, j - 1);
      b := b + 1;
    }
  }
}
