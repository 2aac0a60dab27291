// Stable sorting by a key of two ranks and a string, as sorted() does it.
module Sorting {
  import opened Seqs

  // ---- The order on keys ----

  datatype Key = Key(severity: nat, category: nat, issue: string)

  // Strings compare character by character; a proper prefix comes first.
  predicate StringLe(a: string, b: string) {
    a == [] || (b != [] && (a[0] < b[0] || (a[0] == b[0] && StringLe(a[1..], b[1..]))))
  }

  // Tuples compare component by component.
  predicate KeyLe(a: Key, b: Key) {
    || a.severity < b.severity
    || (a.severity == b.severity
        && (a.category < b.category || (a.category == b.category && StringLe(a.issue, b.issue))))
  }

  lemma {:induction false} StringLeIsTotal(a: string, b: string)
    ensures StringLe(a, b) || StringLe(b, a)
    ensures StringLe(a, b) && StringLe(b, a) ==> a == b
  {
    if a != [] && b != [] {
      StringLeIsTotal(a[1..], b[1..]);
      assert a == [a[0]] + a[1..] && b == [b[0]] + b[1..];
    }
  }

  lemma {:induction false} StringLeIsTransitive(a: string, b: string, c: string)
    requires StringLe(a, b) && StringLe(b, c)
    ensures StringLe(a, c)
  {
    if a != [] && b[0] == a[0] == c[0] {
      StringLeIsTransitive(a[1..], b[1..], c[1..]);
    }
  }

  // At the first character where they differ a has the smaller one, or a ends there.
  predicate DiffersAt(a: string, b: string, k: nat) {
    k <= |a| && k < |b| && a[..k] == b[..k] && (k < |a| ==> a[k] < b[k])
  }

  lemma PrefixStarts(a: string, b: string, k: nat)
    ensures 0 < k <= |a| && k <= |b| && a[..k] == b[..k] ==> a[0] == b[0]
  {
    assert 0 < k <= |a| && k <= |b| ==> a[..k][0] == a[0] && b[..k][0] == b[0];
  }

  lemma {:induction false} StringLeIff(a: string, b: string)
    ensures StringLe(a, b) <==> a == b || exists k: nat :: DiffersAt(a, b, k)
  {
    if a == [] {
      assert b != [] ==> DiffersAt(a, b, 0);
    } else if b != [] {
      StringLeIff(a[1..], b[1..]);
      assert a == [a[0]] + a[1..] && b == [b[0]] + b[1..];
      if a[0] < b[0] {
        assert DiffersAt(a, b, 0);
      } else if a[0] == b[0] {
        if k: nat :| DiffersAt(a[1..], b[1..], k) {
          assert a[..k + 1] == [a[0]] + a[1..][..k] && b[..k + 1] == [b[0]] + b[1..][..k];
          assert DiffersAt(a, b, k + 1);
        }
        if k: nat :| DiffersAt(a, b, k) {
          assert k > 0;
          assert a[1..][..k - 1] == a[..k][1..] && b[1..][..k - 1] == b[..k][1..];
          assert DiffersAt(a[1..], b[1..], k - 1);
        }
      } else {
        forall k: nat ensures !DiffersAt(a, b, k) {
          PrefixStarts(a, b, k);
        }
      }
    }
  }

  lemma KeyLeIsTotalOrder(a: Key, b: Key, c: Key)
    ensures KeyLe(a, b) || KeyLe(b, a)
    ensures KeyLe(a, b) && KeyLe(b, a) ==> a == b
    ensures KeyLe(a, b) && KeyLe(b, c) ==> KeyLe(a, c)
  {
    StringLeIsTotal(a.issue, b.issue);
    if StringLe(a.issue, b.issue) && StringLe(b.issue, c.issue) {
      StringLeIsTransitive(a.issue, b.issue, c.issue);
    }
  }

  // ---- Sorting ----

  // Before the first element that is not smaller.
  function Insert<T>(x: T, s: seq<T>, key: T -> Key): seq<T> {
    if s == [] || KeyLe(key(x), key(s[0])) then [x] + s else [s[0]] + Insert(x, s[1..], key)
  }

  function StableSort<T>(s: seq<T>, key: T -> Key): seq<T> {
    if s == [] then [] else Insert(s[0], StableSort(s[1..], key), key)
  }

  // ---- What a stable sort is ----

  predicate Sorted<T>(s: seq<T>, key: T -> Key) {
    forall i, j | 0 <= i < j < |s| :: KeyLe(key(s[i]), key(s[j]))
  }

  function HasKey<T>(key: T -> Key, k: Key): T -> bool {
    (x: T) => key(x) == k
  }

  // The elements with a given key, in the order they stand.
  function WithKey<T>(s: seq<T>, key: T -> Key, k: Key): seq<T> {
    Filter(s, HasKey(key, k))
  }

  // Same elements for every key, in the same order: a stable rearrangement.
  ghost predicate SamePerKey<T>(s: seq<T>, t: seq<T>, key: T -> Key) {
    forall k :: WithKey(s, key, k) == WithKey(t, key, k)
  }

  lemma WithKeyCons<T>(x: T, s: seq<T>, key: T -> Key, k: Key)
    ensures WithKey([x] + s, key, k) == (if key(x) == k then [x] else []) + WithKey(s, key, k)
  {
    FilterCons(x, s, HasKey(key, k));
  }

  lemma {:induction false} InsertSorts<T>(x: T, s: seq<T>, key: T -> Key)
    requires Sorted(s, key)
    ensures Sorted(Insert(x, s, key), key)
    ensures forall y :: y in Insert(x, s, key) ==> y == x || y in s
  {
    if s != [] {
      KeyLeIsTotalOrder(key(x), key(s[0]), key(s[0]));
      if KeyLe(key(x), key(s[0])) {
        forall j | 0 <= j < |s| ensures KeyLe(key(x), key(s[j])) {
          KeyLeIsTotalOrder(key(x), key(s[0]), key(s[j]));
        }
      } else {
        InsertSorts(x, s[1..], key);
        assert forall y <- s[1..] :: KeyLe(key(s[0]), key(y));
        hide KeyLe;
      }
    }
  }

  lemma {:induction false} InsertKeeps<T>(x: T, s: seq<T>, key: T -> Key, k: Key)
    ensures WithKey(Insert(x, s, key), key, k) == WithKey([x] + s, key, k)
  {
    if s != [] && !KeyLe(key(x), key(s[0])) {
      InsertKeeps(x, s[1..], key, k);
      KeyLeIsTotalOrder(key(x), key(s[0]), key(x));
      hide KeyLe;
      WithKeyCons(s[0], Insert(x, s[1..], key), key, k);
      WithKeyCons(x, s[1..], key, k);
      WithKeyCons(x, s, key, k);
      WithKeyCons(s[0], s[1..], key, k);
      assert s == [s[0]] + s[1..];
      hide WithKey;
    }
  }

  lemma {:induction false} SortSorts<T>(s: seq<T>, key: T -> Key)
    ensures Sorted(StableSort(s, key), key)
    ensures SamePerKey(StableSort(s, key), s, key)
  {
    if s != [] {
      var rest := StableSort(s[1..], key);
      SortSorts(s[1..], key);
      InsertSorts(s[0], rest, key);
      forall k ensures WithKey(Insert(s[0], rest, key), key, k) == WithKey(s, key, k) {
        InsertKeeps(s[0], rest, key, k);
        WithKeyCons(s[0], rest, key, k);
        WithKeyCons(s[0], s[1..], key, k);
        assert s == [s[0]] + s[1..];
      }
    }
  }

  lemma FirstKeyLeads<T>(s: seq<T>, t: seq<T>, key: T -> Key)
    requires Sorted(s, key) && SamePerKey(s, t, key) && s != []
    ensures t != [] && exists j | 0 <= j < |t| :: key(t[j]) == key(s[0])
  {
    var k := key(s[0]);
    assert s == [s[0]] + s[1..];
    WithKeyCons(s[0], s[1..], key, k);
    assert WithKey(t, key, k)[0] in WithKey(t, key, k);
    FilterHolds(t, HasKey(key, k), WithKey(t, key, k)[0]);
  }

  lemma {:induction false} SortedIsUnique<T>(s: seq<T>, t: seq<T>, key: T -> Key)
    requires Sorted(s, key) && Sorted(t, key) && SamePerKey(s, t, key)
    ensures s == t
  {
    if s == [] {
      if t != [] {
        FirstKeyLeads(t, s, key);
      }
    } else {
      FirstKeyLeads(s, t, key);
      FirstKeyLeads(t, s, key);
      var j :| 0 <= j < |t| && key(t[j]) == key(s[0]);
      var i :| 0 <= i < |s| && key(s[i]) == key(t[0]);
      KeyLeIsTotalOrder(key(s[0]), key(t[0]), key(s[0]));
      assert key(s[0]) == key(t[0]);
      hide KeyLe;
      HeadsAgree(s, t, key);
      SortedIsUnique(s[1..], t[1..], key);
      assert s == [s[0]] + s[1..] && t == [t[0]] + t[1..];
    }
  }

  lemma HeadsAgree<T>(s: seq<T>, t: seq<T>, key: T -> Key)
    requires SamePerKey(s, t, key) && s != [] && t != [] && key(s[0]) == key(t[0])
    ensures s[0] == t[0] && SamePerKey(s[1..], t[1..], key)
  {
    WithKeyHead(s, key, key(s[0]));
    WithKeyHead(t, key, key(s[0]));
    assert WithKey(s, key, key(s[0])) == WithKey(t, key, key(s[0]));
    forall k ensures WithKey(s[1..], key, k) == WithKey(t[1..], key, k) {
      WithKeyHead(s, key, k);
      WithKeyHead(t, key, k);
      assert WithKey(s, key, k) == WithKey(t, key, k);
    }
  }

  lemma WithKeyHead<T>(s: seq<T>, key: T -> Key, k: Key)
    requires s != []
    ensures key(s[0]) == k ==> var w := WithKey(s, key, k); w != [] && w[0] == s[0] && w[1..] == WithKey(s[1..], key, k)
    ensures key(s[0]) != k ==> WithKey(s, key, k) == WithKey(s[1..], key, k)
  {
    assert s == [s[0]] + s[1..];
    WithKeyCons(s[0], s[1..], key, k);
    hide WithKey;
  }

  // A sequence is the stable sort of another exactly when it is sorted and has
  // the same elements for every key in the same order.
  lemma StableSortIff<T>(s: seq<T>, t: seq<T>, key: T -> Key)
    ensures t == StableSort(s, key) <==> Sorted(t, key) && SamePerKey(t, s, key)
  {
    SortSorts(s, key);
    if Sorted(t, key) && SamePerKey(t, s, key) {
      SortedIsUnique(t, StableSort(s, key), key);
    }
  }

  // ---- Order of arrival ----

  lemma SameSize<T>(s: seq<T>, t: seq<T>)
    requires multiset(s) == multiset(t)
    ensures |s| == |t|
  {
    assert |multiset(s)| == |s| && |multiset(t)| == |t|;
  }

  function Identity(k: Key): Key {
    k
  }

  lemma {:induction false} KeysWithKey<T>(s: seq<T>, key: T -> Key, k: Key)
    ensures WithKey(Map(s, key), Identity, k) == seq(|WithKey(s, key, k)|, i => k)
  {
    if s != [] {
      KeysWithKey(s[1..], key, k);
      assert Map(s, key) == [key(s[0])] + Map(s[1..], key);
      WithKeyCons(key(s[0]), Map(s[1..], key), Identity, k);
      WithKeyHead(s, key, k);
      hide WithKey, Map;
    }
  }

  // Whatever the order of arrival, the sorted keys are the same.
  lemma PermutationSortsToSameKeys<T>(s: seq<T>, t: seq<T>, key: T -> Key)
    requires multiset(s) == multiset(t)
    ensures Map(StableSort(s, key), key) == Map(StableSort(t, key), key)
  {
    var s', t' := StableSort(s, key), StableSort(t, key);
    SortSorts(s, key);
    SortSorts(t, key);
    forall k ensures WithKey(Map(s', key), Identity, k) == WithKey(Map(t', key), Identity, k) {
      FilterPermutes(s, t, HasKey(key, k));
      SameSize(WithKey(s, key, k), WithKey(t, key, k));
      assert WithKey(s', key, k) == WithKey(s, key, k) && WithKey(t', key, k) == WithKey(t, key, k);
      KeysWithKey(s', key, k);
      KeysWithKey(t', key, k);
    }
    hide WithKey, KeyLe, StableSort;
    SortedIsUnique(Map(s', key), Map(t', key), Identity);
  }

  predicate DistinctKeys<T>(s: seq<T>, key: T -> Key) {
    forall i, j | 0 <= i < j < |s| :: key(s[i]) != key(s[j])
  }

  lemma {:induction false} AtMostOneWithKey<T>(s: seq<T>, key: T -> Key, k: Key)
    requires DistinctKeys(s, key)
    ensures |WithKey(s, key, k)| <= 1
  {
    if s != [] {
      WithKeyHead(s, key, k);
      AtMostOneWithKey(s[1..], key, k);
      if key(s[0]) == k && WithKey(s[1..], key, k) != [] {
        var x := WithKey(s[1..], key, k)[0];
        FilterHolds(s[1..], HasKey(key, k), x);
      }
    }
  }

  lemma DistinctKeysSamePerKey<T>(s: seq<T>, t: seq<T>, key: T -> Key, k: Key)
    requires multiset(s) == multiset(t) && DistinctKeys(s, key)
    ensures WithKey(s, key, k) == WithKey(t, key, k)
  {
    var p := HasKey(key, k);
    FilterPermutes(s, t, p);
    SameSize(WithKey(s, key, k), WithKey(t, key, k));
    AtMostOneWithKey(s, key, k);
    hide Filter;
    if |WithKey(s, key, k)| == 1 {
      var x := WithKey(t, key, k)[0];
      FilterHolds(t, p, x);
      assert x in multiset(t);
      FilterHolds(s, p, x);
    }
  }

  lemma WithKeyAround<T>(before: seq<T>, s: seq<T>, after: seq<T>, key: T -> Key, k: Key)
    ensures WithKey(before + s + after, key, k) == WithKey(before, key, k) + WithKey(s, key, k) + WithKey(after, key, k)
  {
    FilterConcat(before + s, after, HasKey(key, k));
    FilterConcat(before, s, HasKey(key, k));
  }

  // Elements with distinct keys may arrive in any order among themselves: the
  // sorted sequence is the same.
  lemma DistinctKeysArriveInAnyOrder<T>(before: seq<T>, s: seq<T>, t: seq<T>, after: seq<T>, key: T -> Key)
    requires multiset(s) == multiset(t) && DistinctKeys(s, key)
    ensures StableSort(before + s + after, key) == StableSort(before + t + after, key)
  {
    var u, v := before + s + after, before + t + after;
    forall k ensures WithKey(u, key, k) == WithKey(v, key, k) {
      hide WithKey;
      WithKeyAround(before, s, after, key, k);
      WithKeyAround(before, t, after, key, k);
      DistinctKeysSamePerKey(s, t, key, k);
    }
    hide WithKey, KeyLe, Sorted;
    SortSorts(u, key);
    SortSorts(v, key);
    SortedIsUnique(StableSort(u, key), StableSort(v, key), key);
  }

  lemma {:induction false} InsertAdds<T>(x: T, s: seq<T>, key: T -> Key)
    ensures multiset(Insert(x, s, key)) == multiset(s) + multiset{x}
  {
    if s != [] && !KeyLe(key(x), key(s[0])) {
      InsertAdds(x, s[1..], key);
      assert s == [s[0]] + s[1..];
    }
  }

  lemma {:induction false} SortPermutes<T>(s: seq<T>, key: T -> Key)
    ensures multiset(StableSort(s, key)) == multiset(s)
  {
    if s != [] {
      SortPermutes(s[1..], key);
      InsertAdds(s[0], StableSort(s[1..], key), key);
      assert s == [s[0]] + s[1..];
    }
  }
}
