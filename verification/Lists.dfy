/** Sequence vocabulary shared by the models: filtering, first occurrences, cuts. */
module Lists {

  datatype Option<+T> = None | Some(value: T) {
    function GetOr(default: T): T {
      match this
      case None => default
      case Some(v) => v
    }
  }

  /** Python's `s[:n]`, for a non-negative or negative `n` that counts no element. */
  function Take<T>(s: seq<T>, n: int): (r: seq<T>)
    ensures r <= s && |r| == if n <= 0 then 0 else if n < |s| then n else |s|
  {
    if n <= 0 then [] else if n < |s| then s[..n] else s
  }

  function Filter<T>(p: T -> bool, s: seq<T>): seq<T> {
    if s == [] then [] else Filter(p, s[..|s| - 1]) + (if p(s[|s| - 1]) then [s[|s| - 1]] else [])
  }

  lemma {:induction false} FilterIn<T(!new)>(p: T -> bool, s: seq<T>)
    ensures forall x :: x in Filter(p, s) <==> x in s && p(x)
  {
    if s != [] {
      FilterIn(p, s[..|s| - 1]);
    }
  }

  lemma FilterSnoc<T>(p: T -> bool, s: seq<T>, x: T)
    ensures Filter(p, s + [x]) == Filter(p, s) + if p(x) then [x] else []
  {
  }

  lemma {:induction false} SameFilter<T>(p: T -> bool, q: T -> bool, s: seq<T>)
    requires forall x :: x in s ==> p(x) == q(x)
    ensures Filter(p, s) == Filter(q, s)
  {
    if s != [] {
      assert s[|s| - 1] in s;
      SameFilter(p, q, s[..|s| - 1]);
    }
  }

  lemma {:induction false} FilterConcat<T>(p: T -> bool, a: seq<T>, b: seq<T>)
    ensures Filter(p, a + b) == Filter(p, a) + Filter(p, b)
  {
    if b == [] {
      assert a + b == a;
    } else {
      FilterConcat(p, a, b[..|b| - 1]);
      FilterSnoc(p, a + b[..|b| - 1], b[|b| - 1]);
      assert a + b[..|b| - 1] + [b[|b| - 1]] == a + b;
    }
  }

  function Map<S, T>(f: S -> T, s: seq<S>): seq<T> {
    seq(|s|, i requires 0 <= i < |s| => f(s[i]))
  }

  /** The images of all elements, one after the other. */
  function FlatMap<S, T>(f: S -> seq<T>, s: seq<S>): seq<T> {
    if s == [] then [] else FlatMap(f, s[..|s| - 1]) + f(s[|s| - 1])
  }

  lemma FlatMapSnoc<S, T>(f: S -> seq<T>, s: seq<S>, x: S)
    ensures FlatMap(f, s + [x]) == FlatMap(f, s) + f(x)
  {
    assert (s + [x])[..|s|] == s;
  }

  lemma FlatMapOne<S, T>(f: S -> seq<T>, x: S)
    ensures FlatMap(f, [x]) == f(x)
  {
    var none: seq<S> := [];
    FlatMapSnoc(f, none, x);
    assert none + [x] == [x] && FlatMap(f, none) + f(x) == f(x);
  }

  lemma {:induction false} FlatMapConcat<S, T>(f: S -> seq<T>, a: seq<S>, b: seq<S>)
    ensures FlatMap(f, a + b) == FlatMap(f, a) + FlatMap(f, b)
  {
    if b == [] {
      assert a + b == a;
    } else {
      var init, x := b[..|b| - 1], b[|b| - 1];
      FlatMapConcat(f, a, init);
      FlatMapSnoc(f, a + init, x);
      assert a + b == a + init + [x];
      Associate(FlatMap(f, a), FlatMap(f, init), f(x));
    }
  }

  lemma Associate<T>(a: seq<T>, b: seq<T>, c: seq<T>)
    ensures a + b + c == a + (b + c)
  {
  }

  lemma {:induction false} FlatMapNested<R, S, T>(f: S -> seq<T>, g: R -> seq<S>, s: seq<R>)
    ensures FlatMap(f, FlatMap(g, s)) == FlatMap((x: R) => FlatMap(f, g(x)), s)
  {
    if s != [] {
      FlatMapNested(f, g, s[..|s| - 1]);
      FlatMapConcat(f, FlatMap(g, s[..|s| - 1]), g(s[|s| - 1]));
    }
  }

  lemma {:induction false} FlatMapOfOnes<T>(f: T -> seq<T>, s: seq<T>)
    requires forall x :: x in s ==> f(x) == [x]
    ensures FlatMap(f, s) == s
  {
    if s != [] {
      var init, x := s[..|s| - 1], s[|s| - 1];
      assert s == init + [x] && f(x) == [x];
      FlatMapOfOnes(f, init);
    }
  }

  lemma {:induction false} FlatMapKeeps<T>(p: T -> bool, f: T -> seq<T>, s: seq<T>)
    requires forall x :: x in s ==> Filter(p, f(x)) == Filter(p, [x])
    ensures Filter(p, FlatMap(f, s)) == Filter(p, s)
  {
    if s != [] {
      var init, x := s[..|s| - 1], s[|s| - 1];
      assert s == init + [x];
      FlatMapKeeps(p, f, init);
      FilterConcat(p, FlatMap(f, init), f(x));
      FilterConcat(p, init, [x]);
    }
  }

  lemma {:induction false} FilterOfFlatMap<S, T>(p: T -> bool, f: S -> seq<T>, s: seq<S>)
    ensures Filter(p, FlatMap(f, s)) == FlatMap((x: S) => Filter(p, f(x)), s)
  {
    if s != [] {
      FilterOfFlatMap(p, f, s[..|s| - 1]);
      FilterConcat(p, FlatMap(f, s[..|s| - 1]), f(s[|s| - 1]));
    }
  }

  lemma FilterIsFlatMap<T>(p: T -> bool, s: seq<T>)
    ensures Filter(p, s) == FlatMap((x: T) => Filter(p, [x]), s)
  {
    var one := (x: T) => [x];
    FlatMapOfOnes(one, s);
    FilterOfFlatMap(p, one, s);
    FlatMapOfEqual((x: T) => Filter(p, one(x)), (x: T) => Filter(p, [x]), s);
  }

  lemma {:induction false} FlatMapOfEqual<S, T>(f: S -> seq<T>, g: S -> seq<T>, s: seq<S>)
    requires forall x :: x in s ==> f(x) == g(x)
    ensures FlatMap(f, s) == FlatMap(g, s)
  {
    if s != [] {
      assert s[|s| - 1] in s;
      FlatMapOfEqual(f, g, s[..|s| - 1]);
    }
  }

  /** If no element counts for less after the second step, and one for more, the whole count grows. */
  lemma FlatMapAddsCount<T>(p: T -> bool, f: T -> seq<T>, s: seq<T>)
    requires forall x :: x in s ==> |Filter(p, [x])| <= |Filter(p, f(x))|
    requires exists x :: x in s && |Filter(p, [x])| < |Filter(p, f(x))|
    ensures |Filter(p, s)| < |Filter(p, FlatMap(f, s))|
  {
    FilterIsFlatMap(p, s);
    FilterOfFlatMap(p, f, s);
    FlatMapGrows((x: T) => Filter(p, [x]), (x: T) => Filter(p, f(x)), s);
  }

  lemma {:induction false} FlatMapOfNone<S, T>(f: S -> seq<T>, s: seq<S>)
    requires forall x :: x in s ==> f(x) == []
    ensures FlatMap(f, s) == []
  {
    if s != [] {
      assert s[|s| - 1] in s;
      FlatMapOfNone(f, s[..|s| - 1]);
    }
  }

  lemma NestedOnes<S, T>(f: T -> seq<S>, g: S -> seq<T>, s: seq<S>)
    requires forall x :: x in s ==> FlatMap(f, g(x)) == [x]
    ensures FlatMap(f, FlatMap(g, s)) == s
  {
    FlatMapNested(f, g, s);
    FlatMapOfOnes((x: S) => FlatMap(f, g(x)), s);
  }

  lemma {:induction false} FlatMapNestedTwice<R, S, T, U>(f: T -> seq<U>, g: S -> seq<T>, h: R -> seq<S>, s: seq<R>)
    ensures FlatMap(f, FlatMap(g, FlatMap(h, s))) == FlatMap((x: R) => FlatMap(f, FlatMap(g, h(x))), s)
  {
    if s != [] {
      var init, x := s[..|s| - 1], s[|s| - 1];
      FlatMapNestedTwice(f, g, h, init);
      FlatMapConcat(g, FlatMap(h, init), h(x));
      FlatMapConcat(f, FlatMap(g, FlatMap(h, init)), FlatMap(g, h(x)));
    }
  }

  /** A third pass over what two passes made of a list is longer than the first one. */
  lemma NestedGrows<S, T>(f: S -> seq<T>, g: T -> seq<S>, s: seq<S>)
    requires forall x :: x in s ==> |f(x)| <= |FlatMap(f, FlatMap(g, f(x)))|
    requires exists x :: x in s && |f(x)| < |FlatMap(f, FlatMap(g, f(x)))|
    ensures |FlatMap(f, s)| < |FlatMap(f, FlatMap(g, FlatMap(f, s)))|
  {
    FlatMapNestedTwice(f, g, f, s);
    FlatMapGrows(f, (x: S) => FlatMap(f, FlatMap(g, f(x))), s);
  }

  /** If each counted element leaves a counted one, none of the count is lost. */
  lemma {:induction false} FlatMapKeepsCount<T>(p: T -> bool, f: T -> seq<T>, s: seq<T>)
    requires forall x :: x in s && p(x) ==> Filter(p, f(x)) != []
    ensures |Filter(p, s)| <= |Filter(p, FlatMap(f, s))|
  {
    if s != [] {
      var init, x := s[..|s| - 1], s[|s| - 1];
      assert s == init + [x];
      FlatMapKeepsCount(p, f, init);
      FilterConcat(p, FlatMap(f, init), f(x));
    }
  }

  lemma NestedKeepsCount<S, T>(p: T -> bool, f: S -> seq<T>, g: T -> seq<S>, s: seq<T>)
    requires forall x :: x in s && p(x) ==> Filter(p, FlatMap(f, g(x))) != []
    ensures |Filter(p, s)| <= |Filter(p, FlatMap(f, FlatMap(g, s)))|
  {
    FlatMapNested(f, g, s);
    FlatMapKeepsCount(p, (x: T) => FlatMap(f, g(x)), s);
  }

  lemma {:induction false} FlatMapHas<S, T>(f: S -> seq<T>, s: seq<S>, x: S, y: T)
    requires x in s && y in f(x)
    ensures y in FlatMap(f, s)
  {
    var init := s[..|s| - 1];
    if x in init {
      FlatMapHas(f, init, x, y);
    }
  }

  lemma {:induction false} FlatMapFrom<S, T>(f: S -> seq<T>, s: seq<S>, y: T) returns (x: S)
    requires y in FlatMap(f, s)
    ensures x in s && y in f(x)
  {
    var init := s[..|s| - 1];
    if y in FlatMap(f, init) {
      x := FlatMapFrom(f, init, y);
    } else {
      x := s[|s| - 1];
    }
  }

  /** Longer images give a longer list, and strictly so when one of them is. */
  lemma {:induction false} FlatMapGrows<S, T>(f: S -> seq<T>, g: S -> seq<T>, s: seq<S>)
    requires forall x :: x in s ==> |f(x)| <= |g(x)|
    ensures |FlatMap(f, s)| <= |FlatMap(g, s)|
    ensures (exists x :: x in s && |f(x)| < |g(x)|) ==> |FlatMap(f, s)| < |FlatMap(g, s)|
  {
    if s != [] {
      var init, last := s[..|s| - 1], s[|s| - 1];
      assert s == init + [last];
      FlatMapGrows(f, g, init);
      assert |f(last)| <= |g(last)|;
    }
  }

  /** Position of the first element that satisfies `p`, or the length. */
  function FirstIndex<T>(p: T -> bool, s: seq<T>): (k: nat)
    ensures k <= |s| && (k < |s| ==> p(s[k]))
    ensures forall i :: 0 <= i < k ==> !p(s[i])
  {
    if s == [] || p(s[0]) then 0 else 1 + FirstIndex(p, s[1..])
  }

  ghost predicate Distinct<T>(s: seq<T>) {
    forall i, j :: 0 <= i < j < |s| ==> s[i] != s[j]
  }

  /** First occurrences, in order. */
  function Dedup<T(==,!new)>(s: seq<T>): (r: seq<T>)
    ensures Distinct(r)
    ensures forall x :: x in r <==> x in s
  {
    if s == [] then [] else
      var d := Dedup(s[..|s| - 1]);
      var x := s[|s| - 1];
      assert s == s[..|s| - 1] + [x];
      if x in d then d else d + [x]
  }

  lemma DedupSnoc<T(!new)>(s: seq<T>, x: T)
    ensures Dedup(s + [x]) == if x in Dedup(s) then Dedup(s) else Dedup(s) + [x]
  {
  }

  /** The first element of every key, in order. */
  function FirstOfEach<T, K(==)>(key: T -> K, s: seq<T>): seq<T> {
    if s == [] then [] else
      var d, x := FirstOfEach(key, s[..|s| - 1]), s[|s| - 1];
      if key(x) in Map(key, d) then d else d + [x]
  }

  lemma FirstOfEachSnoc<T, K>(key: T -> K, s: seq<T>, x: T)
    ensures FirstOfEach(key, s + [x]) ==
      var d := FirstOfEach(key, s); if key(x) in Map(key, d) then d else d + [x]
  {
    assert (s + [x])[..|s|] == s;
  }

  /** Its keys are the keys of the list, each once, in order. */
  lemma {:induction false} FirstOfEachKeys<T, K(!new)>(key: T -> K, s: seq<T>)
    ensures Map(key, FirstOfEach(key, s)) == Dedup(Map(key, s))
  {
    if s != [] {
      var init, x := s[..|s| - 1], s[|s| - 1];
      FirstOfEachKeys(key, init);
      assert s == init + [x];
      MapSnoc(key, init, x);
      DedupSnoc(Map(key, init), key(x));
      MapSnoc(key, FirstOfEach(key, init), x);
    }
  }

  lemma FirstIsMember<T>(s: seq<T>)
    requires s != []
    ensures s[0] in s
  {
  }

  lemma DistinctSnoc<T>(s: seq<T>, x: T)
    ensures Distinct(s + [x]) <==> Distinct(s) && x !in s
  {
    var t := s + [x];
    if Distinct(t) {
      assert forall i, j :: 0 <= i < j < |s| ==> s[i] == t[i] && s[j] == t[j];
      forall i | 0 <= i < |s| ensures s[i] != x {
        assert t[i] != t[|s|];
      }
    }
  }

  lemma {:induction false} FilterKeepsDistinct<T(!new)>(p: T -> bool, s: seq<T>)
    requires Distinct(s)
    ensures Distinct(Filter(p, s))
  {
    if s != [] {
      var init, x := s[..|s| - 1], s[|s| - 1];
      assert s == init + [x] && x !in init;
      FilterKeepsDistinct(p, init);
      FilterIn(p, init);
      DistinctSnoc(Filter(p, init), x);
      assert Filter(p, init) + [] == Filter(p, init);
    }
  }

  lemma SameElements<T(!new)>(s: seq<T>, t: seq<T>)
    requires multiset(s) == multiset(t)
    ensures forall x :: x in s <==> x in t
  {
    forall x ensures x in s <==> x in t {
      assert x in s <==> x in multiset(s);
      assert x in t <==> x in multiset(t);
    }
  }

  /** The element after a prefix extends the prefix. */
  lemma Snoc<T>(s: seq<T>, i: nat)
    requires i < |s|
    ensures s[..i + 1] == s[..i] + [s[i]]
    ensures s[..i + 1][..i] == s[..i]
    ensures |s[..i + 1]| == i + 1 && s[..i + 1][i] == s[i]
  {
  }

  lemma CutConcat<T>(a: seq<T>, b: seq<T>, k: nat)
    requires k <= |a|
    ensures (a + b)[..k] == a[..k] && (a + b)[k..] == a[k..] + b
  {
  }

  lemma Whole<T>(s: seq<T>)
    ensures s[..|s|] == s
  {
  }

  /** How many elements satisfy `p`. */
  function Count<T>(p: T -> bool, s: seq<T>): nat {
    if s == [] then 0 else Count(p, s[..|s| - 1]) + (if p(s[|s| - 1]) then 1 else 0)
  }

  lemma {:induction false} CountSplit<T>(p: T -> bool, a: seq<T>, b: seq<T>)
    ensures Count(p, a + b) == Count(p, a) + Count(p, b)
  {
    if b == [] {
      assert a + b == a;
    } else {
      var init := b[..|b| - 1];
      assert (a + b)[..|a + b| - 1] == a + init;
      CountSplit(p, a, init);
    }
  }

  lemma WithoutOne<T>(init: seq<T>, left: seq<T>, right: seq<T>, x: T)
    requires multiset(init + [x]) == multiset(left + [x] + right)
    ensures multiset(init) == multiset(left + right)
  {
    assert multiset(init) == multiset(init + [x]) - multiset{x};
    assert multiset(left + right) == multiset(left + [x] + right) - multiset{x};
  }

  /** Counting ignores order. */
  lemma {:induction false} CountOfPermutation<T>(p: T -> bool, s: seq<T>, t: seq<T>)
    requires multiset(s) == multiset(t)
    ensures Count(p, s) == Count(p, t)
    decreases |s|
  {
    assert |s| == |multiset(s)| == |multiset(t)| == |t|;
    if s != [] {
      var init, x := s[..|s| - 1], s[|s| - 1];
      assert s == init + [x];
      assert x in multiset(s);
      assert x in multiset(t);
      var k :| 0 <= k < |t| && t[k] == x;
      var left, right := t[..k], t[k + 1..];
      assert t == left + [x] + right;
      WithoutOne(init, left, right, x);
      CountOfPermutation(p, init, left + right);
      CountSplit(p, left, right);
      CountSplit(p, left + [x], right);
      CountSplit(p, left, [x]);
      assert Count(p, [x]) == if p(x) then 1 else 0 by { assert [x][..0] == []; }
    }
  }

  /** How often an element occurs. */
  function Times<T(==)>(x: T, s: seq<T>): nat {
    Count((y: T) => y == x, s)
  }

  lemma {:induction false} TimesIsMultiplicity<T>(x: T, s: seq<T>)
    ensures Times(x, s) == multiset(s)[x]
  {
    if s != [] {
      TimesIsMultiplicity(x, s[..|s| - 1]);
      assert s == s[..|s| - 1] + [s[|s| - 1]];
    }
  }

  lemma {:induction false} TimesInMap<S, T>(f: S -> T, s: seq<S>, y: T)
    ensures Times(y, Map(f, s)) == Count((x: S) => f(x) == y, s)
  {
    if s != [] {
      TimesInMap(f, s[..|s| - 1], y);
      MapSnoc(f, s[..|s| - 1], s[|s| - 1]);
      assert s == s[..|s| - 1] + [s[|s| - 1]];
      assert Map(f, s)[..|s| - 1] == Map(f, s[..|s| - 1]);
    }
  }

  lemma MapSnoc<S, T>(f: S -> T, s: seq<S>, x: S)
    ensures Map(f, s + [x]) == Map(f, s) + [f(x)]
  {
    assert |Map(f, s + [x])| == |s| + 1;
  }

  lemma MapOfPermutation<S, T(!new)>(f: S -> T, s: seq<S>, t: seq<S>)
    requires multiset(s) == multiset(t)
    ensures multiset(Map(f, s)) == multiset(Map(f, t))
  {
    forall y ensures multiset(Map(f, s))[y] == multiset(Map(f, t))[y] {
      TimesInMap(f, s, y);
      TimesInMap(f, t, y);
      TimesIsMultiplicity(y, Map(f, s));
      TimesIsMultiplicity(y, Map(f, t));
      CountOfPermutation((x: S) => f(x) == y, s, t);
    }
  }

  lemma {:induction false} DistinctIffOnce<T(!new)>(s: seq<T>)
    ensures Distinct(s) <==> forall x :: multiset(s)[x] <= 1
  {
    if s != [] {
      var init, x := s[..|s| - 1], s[|s| - 1];
      assert s == init + [x];
      DistinctIffOnce(init);
      DistinctSnoc(init, x);
      assert multiset(s) == multiset(init) + multiset{x};
      if forall y :: multiset(s)[y] <= 1 {
        assert multiset(s)[x] <= 1;
        forall y ensures multiset(init)[y] <= 1 {
          assert multiset(s)[y] <= 1;
        }
      }
    }
  }

  /** Whether the images of the elements are distinct does not depend on the order. */
  lemma DistinctOfPermutation<S, T(!new)>(f: S -> T, s: seq<S>, t: seq<S>)
    requires multiset(s) == multiset(t) && Distinct(Map(f, s))
    ensures Distinct(Map(f, t))
  {
    MapOfPermutation(f, s, t);
    DistinctIffOnce(Map(f, s));
    DistinctIffOnce(Map(f, t));
  }

  lemma SubsetSize<T>(a: set<T>, b: set<T>)
    requires a <= b
    ensures |a| <= |b|
  {
    assert b == a + (b - a);
  }
}
