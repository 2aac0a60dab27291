// What an encoding tells of a value: everything but the order in which the
// members of its objects stand.
module EncodingTells {
  import opened Wrappers
  import opened PyText
  import opened Seqs
  import opened Encoding
  import Sorting

  // ---- Encodings end where their containers close ----

  function Step(t: Token): int {
    match t
    case Open(_) => 1
    case Close => -1
    case _ => 0
  }

  // How many containers are open after the first n tokens.
  function Level(ts: seq<Token>, n: nat): int
    requires n <= |ts|
  {
    if n == 0 then 0 else Level(ts, n - 1) + Step(ts[n - 1])
  }

  // The tokens of exactly one value.
  predicate Complete(ts: seq<Token>) {
    && ts != [] && Level(ts, |ts|) == 0
    && forall n: nat | 0 < n < |ts| :: Level(ts, n) > 0
  }

  // The tokens of any number of values, with or without keys.
  predicate Balanced(ts: seq<Token>) {
    Level(ts, |ts|) == 0 && forall n: nat | n <= |ts| :: Level(ts, n) >= 0
  }

  predicate AllComplete(ms: seq<Member>) {
    forall m <- ms :: Complete(m.tokens)
  }

  lemma {:induction false} LevelOfPrefix(a: seq<Token>, b: seq<Token>, n: nat)
    requires n <= |a|
    ensures Level(a + b, n) == Level(a, n)
  {
    if n > 0 {
      LevelOfPrefix(a, b, n - 1);
    }
  }

  lemma {:induction false} LevelOfRest(a: seq<Token>, b: seq<Token>, n: nat)
    requires n <= |b|
    ensures Level(a + b, |a| + n) == Level(a, |a|) + Level(b, n)
  {
    if n == 0 {
      LevelOfPrefix(a, b, |a|);
    } else {
      LevelOfRest(a, b, n - 1);
      assert (a + b)[|a| + n - 1] == b[n - 1];
    }
  }

  lemma BalancedConcat(a: seq<Token>, b: seq<Token>)
    requires Balanced(a) && Balanced(b)
    ensures Balanced(a + b)
  {
    forall n: nat | n <= |a + b| ensures Level(a + b, n) >= 0 {
      if n <= |a| {
        LevelOfPrefix(a, b, n);
      } else {
        LevelOfRest(a, b, n - |a|);
      }
    }
    LevelOfRest(a, b, |b|);
  }

  lemma CompleteIsBalanced(ts: seq<Token>)
    requires Complete(ts)
    ensures Balanced(ts)
  {
    forall n: nat | n <= |ts| ensures Level(ts, n) >= 0 {
    }
  }

  lemma KeyIsBalanced(key: PyString)
    ensures Balanced([Key(key)]) && Balanced([])
  {
    assert Level([Key(key)], 1) == Level([Key(key)], 0) + 0;
    forall n: nat | n <= 1 ensures Level([Key(key)], n) >= 0 {
    }
  }

  lemma {:induction false} SpelledIsBalanced(ms: seq<Member>, keyed: bool)
    requires AllComplete(ms)
    ensures Balanced(Spelled(ms, keyed))
  {
    KeyIsBalanced([]);
    if ms != [] {
      assert ms[0] in ms;
      SpelledIsBalanced(ms[1..], keyed);
      CompleteIsBalanced(ms[0].tokens);
      KeyIsBalanced(ms[0].key);
      hide Balanced, Complete;
      BalancedConcat(ms[0].tokens, Spelled(ms[1..], keyed));
      BalancedConcat(if keyed then [Key(ms[0].key)] else [], ms[0].tokens + Spelled(ms[1..], keyed));
    }
  }

  lemma WrappedIsComplete(body: seq<Token>, keyed: bool)
    requires Balanced(body)
    ensures Complete([Open(keyed)] + body + [Close])
  {
    var open, all := [Open(keyed)], [Open(keyed)] + body + [Close];
    assert Level(open, 1) == Level(open, 0) + 1 == 1;
    forall n: nat | 0 < n <= |body| + 1 ensures Level(all, n) > 0 {
      LevelOfPrefix(open + body, [Close], n);
      LevelOfRest(open, body, n - 1);
    }
    LevelOfPrefix(open + body, [Close], |body| + 1);
    LevelOfRest(open, body, |body|);
    assert Level(all, |all|) == Level(all, |body| + 1) - 1;
  }

  lemma InOrderKeeps(ms: seq<Member>, keyed: bool)
    ensures multiset(InOrder(ms, keyed)) == multiset(ms)
    ensures forall m :: m in InOrder(ms, keyed) <==> m in ms
  {
    Sorting.SortPermutes(ms, MemberKey);
    hide Sorting.StableSort;
    forall m ensures m in InOrder(ms, keyed) <==> m in ms {
      assert m in multiset(InOrder(ms, keyed)) <==> m in multiset(ms);
    }
  }

  lemma {:induction false} EncodedIsComplete(v: Value, depth: nat)
    ensures Encode(v, depth).Some? ==> Complete(Encode(v, depth).value)
    decreases v
  {
    match v
    case List(items) =>
      ItemsAreComplete(items, false, depth);
      WrappedMembersAreComplete(EncodeItems(items, false, depth), false, depth);
    case Object(items) =>
      ItemsAreComplete(items, true, depth);
      WrappedMembersAreComplete(EncodeItems(items, true, depth), true, depth);
    case _ =>
      assert Level([Scalar(v)], 1) == Level([Scalar(v)], 0) + 0;
  }

  lemma WrappedMembersAreComplete(ms: Option<seq<Member>>, keyed: bool, depth: nat)
    requires ms.Some? ==> AllComplete(ms.value)
    ensures Wrapped(ms, keyed, depth).Some? ==> Complete(Wrapped(ms, keyed, depth).value)
  {
    hide Complete;
    if ms.Some? {
      InOrderKeeps(ms.value, keyed);
      SpelledIsBalanced(InOrder(ms.value, keyed), keyed);
      WrappedIsComplete(Spelled(InOrder(ms.value, keyed), keyed), keyed);
    }
  }

  lemma {:induction false} ItemsAreComplete(items: Items, keyed: bool, depth: nat)
    ensures EncodeItems(items, keyed, depth).Some? ==> AllComplete(EncodeItems(items, keyed, depth).value)
    decreases items
  {
    match items
    case Done =>
    case Item(_, value, rest) =>
      if depth > 0 {
        EncodedIsComplete(value, depth - 1);
        ItemsAreComplete(rest, keyed, depth);
      }
  }

  // ---- Encodings are read back uniquely ----

  lemma NoLongerComplete(a: seq<Token>, b: seq<Token>, r: seq<Token>, s: seq<Token>)
    requires Complete(a) && Complete(b) && a + r == b + s
    ensures |a| >= |b|
  {
    if |a| < |b| {
      LevelOfPrefix(a, r, |a|);
      LevelOfPrefix(b, s, |a|);
    }
  }

  lemma CompleteEndsOnce(a: seq<Token>, b: seq<Token>, r: seq<Token>, s: seq<Token>)
    requires Complete(a) && Complete(b) && a + r == b + s
    ensures a == b && r == s
  {
    NoLongerComplete(a, b, r, s);
    NoLongerComplete(b, a, s, r);
    hide Complete;
    assert a == (a + r)[..|a|] == (b + s)[..|b|] == b;
    assert r == (a + r)[|a|..] == (b + s)[|b|..] == s;
  }

  predicate Unkeyed(ms: seq<Member>) {
    forall m <- ms :: m.key == []
  }

  lemma SpelledIsEmptyIff(ms: seq<Member>, keyed: bool)
    requires AllComplete(ms)
    ensures Spelled(ms, keyed) == [] <==> ms == []
  {
    assert ms != [] ==> ms[0] in ms;
  }

  lemma {:induction false} SpelledTells(ms: seq<Member>, ns: seq<Member>, keyed: bool)
    requires AllComplete(ms) && AllComplete(ns)
    requires !keyed ==> Unkeyed(ms) && Unkeyed(ns)
    requires Spelled(ms, keyed) == Spelled(ns, keyed)
    ensures ms == ns
    decreases |ms|
  {
    SpelledIsEmptyIff(ms, keyed);
    SpelledIsEmptyIff(ns, keyed);
    if ms != [] && ns != [] {
      var m, n, r, s := ms[0], ns[0], Spelled(ms[1..], keyed), Spelled(ns[1..], keyed);
      assert m in ms && n in ns;
      if keyed {
        var t, u := Spelled(ms, true), Spelled(ns, true);
        assert t[0] == Key(m.key) && u[0] == Key(n.key);
        assert t[1..] == m.tokens + r && u[1..] == n.tokens + s;
      } else {
        assert Spelled(ms, false) == m.tokens + r && Spelled(ns, false) == n.tokens + s;
      }
      CompleteEndsOnce(m.tokens, n.tokens, r, s);
      hide Complete;
      SpelledTells(ms[1..], ns[1..], keyed);
      assert ms == [m] + ms[1..] && ns == [n] + ns[1..];
    }
  }

  // ---- Members ----

  // No key stands twice, as in a dictionary.
  predicate DistinctKeys(items: Items) {
    match items
    case Done => true
    case Item(key, _, rest) => Find(rest, key).None? && DistinctKeys(rest)
  }

  // The encoding of what an object maps a key to.
  function EncodedAt(items: Items, key: PyString, depth: nat): Option<seq<Token>>
    requires depth > 0
  {
    var found := Find(items, key);
    if found.Some? then Encode(found.value, depth - 1) else None
  }

  lemma {:induction false} MembersAre(items: Items, depth: nat, key: PyString, tokens: seq<Token>)
    requires depth > 0 && EncodeItems(items, true, depth).Some? && DistinctKeys(items)
    ensures Member(key, tokens) in EncodeItems(items, true, depth).value <==> EncodedAt(items, key, depth) == Some(tokens)
    ensures Find(items, key).Some? ==> EncodedAt(items, key, depth).Some?
  {
    match items
    case Done =>
    case Item(k, value, rest) =>
      MembersAre(rest, depth, key, tokens);
      assert EncodeItems(items, true, depth).value
          == [Member(k, Encode(value, depth - 1).value)] + EncodeItems(rest, true, depth).value;
      hide Encode, EncodeItems;
      if k == key {
        assert EncodedAt(rest, key, depth) == None;
      }
  }

  lemma {:induction false} MembersHaveKeys(items: Items, depth: nat)
    requires depth > 0 && EncodeItems(items, true, depth).Some? && DistinctKeys(items)
    ensures Sorting.DistinctKeys(EncodeItems(items, true, depth).value, MemberKey)
    ensures forall m <- EncodeItems(items, true, depth).value :: WellFormed(m.key)
  {
    match items
    case Done =>
    case Item(k, value, rest) =>
      MembersHaveKeys(rest, depth);
      var first, ms := Member(k, Encode(value, depth - 1).value), EncodeItems(rest, true, depth).value;
      assert EncodeItems(items, true, depth).value == [first] + ms;
      forall m | m in ms ensures MemberKey(m) != MemberKey(first) {
        MembersAre(rest, depth, m.key, m.tokens);
        if Chars(m.key) == Chars(k) {
          CharsAreInjective(m.key, k);
        }
      }
      hide Encode, EncodeItems, MemberKey;
      assert forall i | 0 <= i < |ms| :: ms[i] in ms;
  }

  lemma SortedMembersAreSame(ms: seq<Member>, ns: seq<Member>)
    requires Sorting.DistinctKeys(ms, MemberKey) && Sorting.DistinctKeys(ns, MemberKey)
    requires forall m :: m in ms <==> m in ns
    ensures InOrder(ms, true) == InOrder(ns, true)
  {
    assert Distinct(ms) && Distinct(ns);
    DistinctPermutes(ms, ns);
    Sorting.DistinctKeysArriveInAnyOrder([], ms, ns, [], MemberKey);
    assert [] + ms + [] == ms && [] + ns + [] == ns;
  }

  // ---- The theorem ----

  function Values(items: Items): seq<Value> {
    match items
    case Done => []
    case Item(_, value, rest) => [value] + Values(rest)
  }

  lemma {:induction false} MembersOfList(items: Items, depth: nat)
    requires depth > 0 && EncodeItems(items, false, depth).Some?
    ensures var ms := EncodeItems(items, false, depth).value;
            && |ms| == |Values(items)| && Unkeyed(ms)
            && forall i | 0 <= i < |ms| :: Encode(Values(items)[i], depth - 1) == Some(ms[i].tokens)
  {
    match items
    case Done =>
    case Item(_, value, rest) =>
      MembersOfList(rest, depth);
      hide Encode;
  }

  lemma WrappedTells(ms: seq<Member>, ns: seq<Member>, keyed: bool, other: bool, depth: nat)
    requires depth > 0 && AllComplete(ms) && AllComplete(ns)
    requires (!keyed ==> Unkeyed(ms)) && (!other ==> Unkeyed(ns))
    ensures Wrapped(Some(ms), keyed, depth) == Wrapped(Some(ns), other, depth)
       <==> keyed == other && InOrder(ms, keyed) == InOrder(ns, keyed)
  {
    var a, b := Wrapped(Some(ms), keyed, depth).value, Wrapped(Some(ns), other, depth).value;
    var s, t := Spelled(InOrder(ms, keyed), keyed), Spelled(InOrder(ns, other), other);
    hide Spelled;
    if a == b {
      assert a[0] == Open(keyed) && b[0] == Open(other);
      assert s == a[1..|a| - 1] && t == b[1..|b| - 1];
      InOrderKeeps(ms, keyed);
      InOrderKeeps(ns, keyed);
      hide InOrder;
      SpelledTells(InOrder(ms, keyed), InOrder(ns, keyed), keyed);
    }
  }

  lemma ListsEncodeAlike(a: Items, b: Items, depth: nat)
    requires depth > 0 && EncodeItems(a, false, depth).Some? && EncodeItems(b, false, depth).Some?
    ensures EncodeItems(a, false, depth) == EncodeItems(b, false, depth) <==>
      && |Values(a)| == |Values(b)|
      && forall i | 0 <= i < |Values(a)| :: Encode(Values(a)[i], depth - 1) == Encode(Values(b)[i], depth - 1)
  {
    MembersOfList(a, depth);
    MembersOfList(b, depth);
    var ms, ns := EncodeItems(a, false, depth).value, EncodeItems(b, false, depth).value;
    hide Encode, EncodeItems, Values;
    if |ms| == |ns| && forall i | 0 <= i < |ms| :: ms[i].tokens == ns[i].tokens {
      forall i | 0 <= i < |ms| ensures ms[i] == ns[i] {
        assert ms[i] in ms && ns[i] in ns;
      }
      assert ms == ns;
    }
  }

  lemma ObjectsEncodeAlike(a: Items, b: Items, depth: nat)
    requires depth > 0 && EncodeItems(a, true, depth).Some? && EncodeItems(b, true, depth).Some?
    requires DistinctKeys(a) && DistinctKeys(b)
    ensures InOrder(EncodeItems(a, true, depth).value, true) == InOrder(EncodeItems(b, true, depth).value, true)
       <==> forall key :: EncodedAt(a, key, depth) == EncodedAt(b, key, depth)
  {
    var ms, ns := EncodeItems(a, true, depth).value, EncodeItems(b, true, depth).value;
    forall key: PyString, tokens: seq<Token>
      ensures Member(key, tokens) in ms <==> EncodedAt(a, key, depth) == Some(tokens)
      ensures Member(key, tokens) in ns <==> EncodedAt(b, key, depth) == Some(tokens)
    {
      MembersAre(a, depth, key, tokens);
      MembersAre(b, depth, key, tokens);
    }
    MembersHaveKeys(a, depth);
    MembersHaveKeys(b, depth);
    InOrderKeeps(ms, true);
    InOrderKeeps(ns, true);
    hide Encode, EncodeItems, InOrder, EncodedAt;
    if InOrder(ms, true) == InOrder(ns, true) {
      forall key ensures EncodedAt(a, key, depth) == EncodedAt(b, key, depth) {
        var x, y := EncodedAt(a, key, depth), EncodedAt(b, key, depth);
        assert x.Some? ==> Member(key, x.value) in ns;
        assert y.Some? ==> Member(key, y.value) in ms;
      }
    }
    if forall key :: EncodedAt(a, key, depth) == EncodedAt(b, key, depth) {
      forall m ensures m in ms <==> m in ns {
        assert m == Member(m.key, m.tokens);
      }
      SortedMembersAreSame(ms, ns);
    }
  }

  // Two values are encoded alike exactly when they are the same scalar, lists
  // whose values are encoded alike one by one, or objects that map the same keys
  // to values encoded alike, whatever the order of their members.
  lemma EncodesAlikeIff(v: Value, w: Value, depth: nat)
    requires Encode(v, depth).Some? && Encode(w, depth).Some?
    requires (v.Object? ==> DistinctKeys(v.items)) && (w.Object? ==> DistinctKeys(w.items))
    ensures Encode(v, depth) == Encode(w, depth) <==>
      match v
      case List(a) =>
        && w.List? && |Values(a)| == |Values(w.items)|
        && forall i | 0 <= i < |Values(a)| :: Encode(Values(a)[i], depth - 1) == Encode(Values(w.items)[i], depth - 1)
      case Object(a) =>
        w.Object? && forall key :: EncodedAt(a, key, depth) == EncodedAt(w.items, key, depth)
      case _ => v == w
  {
    var plain := !v.List? && !v.Object?;
    if !plain && (w.List? || w.Object?) {
      ItemsAreComplete(v.items, v.Object?, depth);
      ItemsAreComplete(w.items, w.Object?, depth);
      ContainersEncodeAlike(v, w, depth);
    } else if !plain || w.List? || w.Object? {
      assert Encode(v, depth).value[0].Open? != Encode(w, depth).value[0].Open?;
    }
  }

  lemma ContainersEncodeAlike(v: Value, w: Value, depth: nat)
    requires Encode(v, depth).Some? && Encode(w, depth).Some?
    requires (v.List? || v.Object?) && (w.List? || w.Object?)
    requires (v.Object? ==> DistinctKeys(v.items)) && (w.Object? ==> DistinctKeys(w.items))
    ensures Encode(v, depth) == Encode(w, depth) <==>
      if v.List? then
        && w.List? && |Values(v.items)| == |Values(w.items)|
        && forall i | 0 <= i < |Values(v.items)| ::
             Encode(Values(v.items)[i], depth - 1) == Encode(Values(w.items)[i], depth - 1)
      else w.Object? && forall key :: EncodedAt(v.items, key, depth) == EncodedAt(w.items, key, depth)
  {
    var ms, ns := EncodeItems(v.items, v.Object?, depth), EncodeItems(w.items, w.Object?, depth);
    assert Encode(v, depth) == Wrapped(ms, v.Object?, depth) && Encode(w, depth) == Wrapped(ns, w.Object?, depth);
    ItemsAreComplete(v.items, v.Object?, depth);
    ItemsAreComplete(w.items, w.Object?, depth);
    if v.List? {
      MembersOfList(v.items, depth);
    }
    if w.List? {
      MembersOfList(w.items, depth);
    }
    hide Encode, EncodeItems, Values, AllComplete, Unkeyed;
    WrappedTells(ms.value, ns.value, v.Object?, w.Object?, depth);
    hide Wrapped, DistinctKeys, EncodedAt;
    if v.List? && w.List? {
      ListsEncodeAlike(v.items, w.items, depth);
    } else if v.Object? && w.Object? {
      ObjectsEncodeAlike(v.items, w.items, depth);
    }
  }
}
