/** Sorting by a comparison, and the orders that Python's tuples and strings have. */
module Sorting {
  import opened Lists

  ghost predicate Preorder<T(!new)>(le: (T, T) -> bool) {
    && (forall a, b :: le(a, b) || le(b, a))
    && (forall a, b, c :: le(a, b) && le(b, c) ==> le(a, c))
  }

  ghost predicate TotalOrder<T(!new)>(le: (T, T) -> bool) {
    Preorder(le) && forall a, b :: le(a, b) && le(b, a) ==> a == b
  }

  function Insert<T>(le: (T, T) -> bool, sorted: seq<T>, x: T): seq<T> {
    if sorted == [] || le(sorted[|sorted| - 1], x) then sorted + [x]
    else Insert(le, sorted[..|sorted| - 1], x) + [sorted[|sorted| - 1]]
  }

  /** Python's stable `sorted`. */
  function Sort<T>(le: (T, T) -> bool, s: seq<T>): seq<T> {
    if s == [] then [] else Insert(le, Sort(le, s[..|s| - 1]), s[|s| - 1])
  }

  ghost predicate Ascending<T>(le: (T, T) -> bool, s: seq<T>) {
    forall i, j :: 0 <= i < j < |s| ==> le(s[i], s[j])
  }

  ghost predicate AllBelow<T>(le: (T, T) -> bool, s: seq<T>, x: T) {
    forall y :: y in s ==> le(y, x)
  }

  lemma AscendingSnoc<T(!new)>(le: (T, T) -> bool, s: seq<T>, x: T)
    ensures Ascending(le, s + [x]) <==> Ascending(le, s) && AllBelow(le, s, x)
  {
    var t := s + [x];
    if Ascending(le, t) {
      forall y | y in s ensures le(y, x) {
        var i :| 0 <= i < |s| && s[i] == y;
        assert le(t[i], t[|s|]);
      }
      forall i, j | 0 <= i < j < |s| ensures le(s[i], s[j]) {
        assert le(t[i], t[j]);
      }
    }
  }

  lemma {:induction false} InsertKeeps<T(!new)>(le: (T, T) -> bool, sorted: seq<T>, x: T)
    requires Preorder(le) && Ascending(le, sorted)
    ensures Ascending(le, Insert(le, sorted, x))
    ensures multiset(Insert(le, sorted, x)) == multiset(sorted) + multiset{x}
  {
    if sorted != [] {
      var init, last := sorted[..|sorted| - 1], sorted[|sorted| - 1];
      assert sorted == init + [last];
      AscendingSnoc(le, init, last);
      if le(last, x) {
        AscendingSnoc(le, sorted, x);
      } else {
        InsertKeeps(le, init, x);
        forall y | y in Insert(le, init, x) ensures le(y, last) {
          assert y in multiset(Insert(le, init, x));
        }
        AscendingSnoc(le, Insert(le, init, x), last);
      }
    }
  }

  lemma {:induction false} SortSorts<T(!new)>(le: (T, T) -> bool, s: seq<T>)
    requires Preorder(le)
    ensures Ascending(le, Sort(le, s)) && multiset(Sort(le, s)) == multiset(s)
  {
    if s != [] {
      var init, x := s[..|s| - 1], s[|s| - 1];
      SortSorts(le, init);
      var sorted := Sort(le, init);
      assert Sort(le, s) == Insert(le, sorted, x);
      InsertKeeps(le, sorted, x);
      assert multiset(s) == multiset(init) + multiset{x} by { assert s == init + [x]; }
    }
  }

  lemma SameLast<T(!new)>(le: (T, T) -> bool, a: seq<T>, x: T, b: seq<T>, y: T)
    requires TotalOrder(le) && AllBelow(le, a, x) && AllBelow(le, b, y)
    requires multiset(a + [x]) == multiset(b + [y])
    ensures x == y && multiset(a) == multiset(b)
  {
    assert x in multiset(b + [y]) && y in multiset(a + [x]);
    assert x in b || x == y;
    assert y in a || x == y;
    assert multiset(a) == multiset(a + [x]) - multiset{x};
    assert multiset(b) == multiset(b + [y]) - multiset{y};
  }

  /** A total order leaves one sorted list of given elements. */
  lemma {:induction false} AscendingIsUnique<T(!new)>(le: (T, T) -> bool, s: seq<T>, t: seq<T>)
    requires TotalOrder(le) && Ascending(le, s) && Ascending(le, t) && multiset(s) == multiset(t)
    ensures s == t
    decreases |s|
  {
    assert |s| == |multiset(s)| == |multiset(t)| == |t|;
    if s != [] {
      var a, x, b, y := s[..|s| - 1], s[|s| - 1], t[..|t| - 1], t[|t| - 1];
      assert s == a + [x] && t == b + [y];
      AscendingSnoc(le, a, x);
      AscendingSnoc(le, b, y);
      SameLast(le, a, x, b, y);
      AscendingIsUnique(le, a, b);
    }
  }

  lemma {:induction false} SortOfAscending<T(!new)>(le: (T, T) -> bool, s: seq<T>)
    requires Ascending(le, s)
    ensures Sort(le, s) == s
  {
    if s != [] {
      var init, x := s[..|s| - 1], s[|s| - 1];
      assert s == init + [x];
      AscendingSnoc(le, init, x);
      SortOfAscending(le, init);
      if init != [] {
        assert init[|init| - 1] in init;
      }
    }
  }

  /** Elements that the comparison cannot tell from `x`. */
  function Ties<T>(le: (T, T) -> bool, s: seq<T>, x: T): seq<T> {
    Filter((y: T) => le(x, y) && le(y, x), s)
  }

  lemma TiesSnoc<T>(le: (T, T) -> bool, s: seq<T>, y: T, x: T)
    ensures Ties(le, s + [y], x) == Ties(le, s, x) + Ties(le, [y], x)
  {
    FilterConcat((z: T) => le(x, z) && le(z, x), s, [y]);
  }

  lemma {:induction false} InsertIsStable<T(!new)>(le: (T, T) -> bool, sorted: seq<T>, y: T, x: T)
    requires Preorder(le)
    ensures Ties(le, Insert(le, sorted, y), x) == Ties(le, sorted, x) + Ties(le, [y], x)
  {
    if sorted == [] || le(sorted[|sorted| - 1], y) {
      TiesSnoc(le, sorted, y, x);
    } else {
      var init, last := sorted[..|sorted| - 1], sorted[|sorted| - 1];
      InsertIsStable(le, init, y, x);
      TiesSnoc(le, Insert(le, init, y), last, x);
      TiesSnoc(le, init, last, x);
      assert sorted == init + [last];
      OneOfTwo(le, y, last, x);
    }
  }

  lemma OneOfTwo<T(!new)>(le: (T, T) -> bool, y: T, last: T, x: T)
    requires Preorder(le) && !le(last, y)
    ensures Ties(le, [y], x) == [] || Ties(le, [last], x) == []
  {
    TieOfOne(le, y, x);
    TieOfOne(le, last, x);
  }

  lemma TieOfOne<T>(le: (T, T) -> bool, y: T, x: T)
    ensures Ties(le, [y], x) == if le(x, y) && le(y, x) then [y] else []
  {
    var none: seq<T> := [];
    FilterSnoc((z: T) => le(x, z) && le(z, x), none, y);
    assert none + [y] == [y];
  }

  /** Elements that tie keep their order. */
  lemma {:induction false} SortIsStable<T(!new)>(le: (T, T) -> bool, s: seq<T>, x: T)
    requires Preorder(le)
    ensures Ties(le, Sort(le, s), x) == Ties(le, s, x)
  {
    if s != [] {
      var init, y := s[..|s| - 1], s[|s| - 1];
      SortIsStable(le, init, x);
      InsertIsStable(le, Sort(le, init), y, x);
      TiesSnoc(le, init, y, x);
      assert s == init + [y];
    }
  }

  // ----- Sorting by a key, greatest first

  function ByDesc<T>(key: T -> int): (T, T) -> bool {
    (a: T, b: T) => key(a) >= key(b)
  }

  /** Python's sort by a key, in descending order; negate the key for ascending order. */
  function SortDesc<T>(key: T -> int, s: seq<T>): seq<T> {
    Sort(ByDesc(key), s)
  }

  ghost predicate Descending<T>(key: T -> int, s: seq<T>) {
    forall i, j :: 0 <= i < j < |s| ==> key(s[i]) >= key(s[j])
  }

  lemma DescendingIsAscending<T(!new)>(key: T -> int, s: seq<T>)
    ensures Descending(key, s) <==> Ascending(ByDesc(key), s)
    ensures Preorder(ByDesc(key))
  {
    var le := ByDesc(key);
    if Ascending(le, s) {
      forall i, j | 0 <= i < j < |s| ensures key(s[i]) >= key(s[j]) {
        assert le(s[i], s[j]);
      }
    }
  }

  lemma SortDescSorts<T(!new)>(key: T -> int, s: seq<T>)
    ensures Descending(key, SortDesc(key, s)) && multiset(SortDesc(key, s)) == multiset(s)
    ensures (forall y :: y in SortDesc(key, s) <==> y in s) && |SortDesc(key, s)| == |s|
  {
    DescendingIsAscending(key, SortDesc(key, s));
    SortSorts(ByDesc(key), s);
    SameElements(SortDesc(key, s), s);
    assert |SortDesc(key, s)| == |multiset(SortDesc(key, s))|;
  }

  /** Sorting leaves a list alone exactly when it is already in order. */
  lemma SortDescIsIdentity<T(!new)>(key: T -> int, s: seq<T>)
    ensures SortDesc(key, s) == s <==> Descending(key, s)
  {
    SortDescSorts(key, s);
    DescendingIsAscending(key, s);
    if Descending(key, s) {
      SortOfAscending(ByDesc(key), s);
    }
  }

  /** Elements with one key, in order. */
  function WithKey<T>(key: T -> int, s: seq<T>, v: int): seq<T> {
    Filter((y: T) => key(y) == v, s)
  }

  lemma {:induction false} TiesAreWithKey<T(!new)>(key: T -> int, s: seq<T>, x: T)
    ensures Ties(ByDesc(key), s, x) == WithKey(key, s, key(x))
  {
    if s != [] {
      TiesAreWithKey(key, s[..|s| - 1], x);
    }
  }

  lemma {:induction false} NoneWithKey<T(!new)>(key: T -> int, s: seq<T>, v: int)
    requires forall y :: y in s ==> key(y) != v
    ensures WithKey(key, s, v) == []
  {
    if s != [] {
      assert s[|s| - 1] in s;
      NoneWithKey(key, s[..|s| - 1], v);
    }
  }

  /** Elements with equal keys keep their order. */
  lemma SortDescIsStable<T(!new)>(key: T -> int, s: seq<T>, v: int)
    ensures WithKey(key, SortDesc(key, s), v) == WithKey(key, s, v)
  {
    SortDescSorts(key, s);
    DescendingIsAscending(key, s);
    if x :| x in s && key(x) == v {
      SortIsStable(ByDesc(key), s, x);
      TiesAreWithKey(key, s, x);
      TiesAreWithKey(key, SortDesc(key, s), x);
    } else {
      NoneWithKey(key, s, v);
      NoneWithKey(key, SortDesc(key, s), v);
    }
  }

  /** What a cut of a sorted list drops ranks no higher than what it keeps, and the cut is full. */
  lemma CutOfDescending<T>(key: T -> int, sorted: seq<T>, n: int, kept: T, dropped: T)
    requires Descending(key, sorted) && kept in Take(sorted, n)
    requires dropped in sorted && dropped !in Take(sorted, n)
    ensures key(dropped) <= key(kept) && |Take(sorted, n)| == n
  {
    var i :| 0 <= i < |Take(sorted, n)| && Take(sorted, n)[i] == kept;
    var j :| 0 <= j < |sorted| && sorted[j] == dropped;
    assert forall m :: 0 <= m < |Take(sorted, n)| ==> Take(sorted, n)[m] == sorted[m];
    assert sorted[i] == kept;
  }

  // ----- Orders

  predicate IntLe(a: int, b: int) { a <= b }

  /** The first component decides; the second breaks ties. */
  function Then<S(==), T>(le: (S, S) -> bool, tie: (T, T) -> bool): ((S, T), (S, T)) -> bool {
    (a: (S, T), b: (S, T)) => le(a.0, b.0) && (a.0 == b.0 ==> tie(a.1, b.1))
  }

  lemma ThenIs<S, T>(le: (S, S) -> bool, tie: (T, T) -> bool, a: (S, T), b: (S, T))
    ensures Then(le, tie)(a, b) <==> le(a.0, b.0) && (a.0 == b.0 ==> tie(a.1, b.1))
  {
  }

  lemma ThenIsTotal<S(!new), T(!new)>(le: (S, S) -> bool, tie: (T, T) -> bool)
    requires TotalOrder(le) && TotalOrder(tie)
    ensures TotalOrder(Then(le, tie))
  {
    var both := Then(le, tie);
    forall a: (S, T), b: (S, T) ensures both(a, b) || both(b, a) {
      assert le(a.0, b.0) || le(b.0, a.0);
      assert tie(a.1, b.1) || tie(b.1, a.1);
    }
    forall a: (S, T), b: (S, T) | both(a, b) && both(b, a) ensures a == b {
      assert le(a.0, b.0) && le(b.0, a.0);
      assert a.0 == b.0 && tie(a.1, b.1) && tie(b.1, a.1);
      assert a == (a.0, a.1) && b == (b.0, b.1);
    }
    forall a: (S, T), b: (S, T), c: (S, T) | both(a, b) && both(b, c) ensures both(a, c) {
      assert le(a.0, b.0) && le(b.0, c.0);
      if a.0 == c.0 {
        assert tie(a.1, b.1) && tie(b.1, c.1);
      }
    }
  }

  /** Python's order on strings. */
  predicate LexLe(a: string, b: string) {
    a == "" || (b != "" && (a[0] < b[0] || (a[0] == b[0] && LexLe(a[1..], b[1..]))))
  }

  lemma SameFirst(a: string, b: string, k: nat)
    requires 0 < k <= |a| && k <= |b| && a[..k] == b[..k]
    ensures a[0] == b[0]
  {
    assert a[0] == a[..k][0] && b[0] == b[..k][0];
  }

  /** One text comes before another when it is the beginning of it, or where they first differ has the lesser
      character. */
  lemma {:induction false} LexIff(a: string, b: string)
    ensures LexLe(a, b) <==> a <= b || exists k :: 0 <= k < |a| && k < |b| && a[..k] == b[..k] && a[k] < b[k]
  {
    if a != "" && b != "" && a[0] == b[0] {
      var c, x, y := a[0], a[1..], b[1..];
      assert a == [c] + x && b == [c] + y;
      LexIff(x, y);
      if k :| 0 <= k < |x| && k < |y| && x[..k] == y[..k] && x[k] < y[k] {
        assert a[..k + 1] == [c] + x[..k] && b[..k + 1] == [c] + y[..k];
        assert a[k + 1] < b[k + 1];
      }
      if k :| 0 <= k < |a| && k < |b| && a[..k] == b[..k] && a[k] < b[k] {
        assert x[..k - 1] == a[..k][1..] == b[..k][1..] == y[..k - 1];
        assert x[k - 1] < y[k - 1];
      }
    } else if a != "" && b != "" {
      if a[0] < b[0] {
        assert a[..0] == b[..0];
      }
      if k :| 0 <= k < |a| && k < |b| && a[..k] == b[..k] && a[k] < b[k] {
        if k > 0 {
          SameFirst(a, b, k);
        }
      }
    }
  }

  lemma {:induction false} LexTransitive(a: string, b: string, c: string)
    requires LexLe(a, b) && LexLe(b, c)
    ensures LexLe(a, c)
  {
    if a != "" && a[0] == b[0] == c[0] {
      LexTransitive(a[1..], b[1..], c[1..]);
    }
  }

  lemma {:induction false} LexLinear(a: string, b: string)
    ensures LexLe(a, b) || LexLe(b, a)
    ensures LexLe(a, b) && LexLe(b, a) ==> a == b
  {
    if a != "" && b != "" {
      LexLinear(a[1..], b[1..]);
      assert a == [a[0]] + a[1..] && b == [b[0]] + b[1..];
    }
  }

  lemma LexIsTotal()
    ensures TotalOrder(LexLe)
  {
    forall a: string, b: string ensures LexLe(a, b) || LexLe(b, a) {
      LexLinear(a, b);
    }
    forall a: string, b: string | LexLe(a, b) && LexLe(b, a) ensures a == b {
      LexLinear(a, b);
    }
    forall a: string, b: string, c: string | LexLe(a, b) && LexLe(b, c) ensures LexLe(a, c) {
      LexTransitive(a, b, c);
    }
  }

  lemma IntIsTotal()
    ensures TotalOrder(IntLe)
  {
  }
}
