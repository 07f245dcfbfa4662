/** Small shared vocabulary: optional values, results, sums over maps and counting in sequences. */
module Basics {

  datatype Option<+T> = None | Some(value: T)

  /** A Go (value, error) pair. Usable with `:-`. */
  datatype Result<+T, +E> = Ok(value: T) | Err(error: E) {
    predicate IsFailure() { Err? }

    function PropagateFailure<U>(): Result<U, E>
      requires Err?
    {
      Err(error)
    }

    function Extract(): T
      requires Ok?
    {
      value
    }
  }

  newtype Byte = b: int | 0 <= b < 256

  type Bytes = seq<Byte>

  function Min(a: int, b: int): int { if a <= b then a else b }

  /** Reading a missing key of a Go map[string]int yields zero. */
  function At<K>(m: map<K, int>, k: K): int {
    if k in m then m[k] else 0
  }

  /** The sum of all values of a map, in whatever order a loop visits them. */
  ghost function Sum<K>(m: map<K, int>): int
    decreases |m|
  {
    if m == map[] then 0
    else
      var k :| k in m;
      m[k] + Sum(m - {k})
  }

  lemma SumNothing<K>(m: map<K, int>)
    ensures m == map[] ==> Sum(m) == 0
  {}

  lemma SumRemove<K>(m: map<K, int>, k: K)
    requires k in m
    ensures Sum(m) == m[k] + Sum(m - {k})
    decreases |m|
  {
    var j :| j in m && Sum(m) == m[j] + Sum(m - {j});
    if j != k {
      SumRemove(m - {j}, k);
      SumRemove(m - {k}, j);
      assert m - {j} - {k} == m - {k} - {j};
    }
  }

  /** Writing one key changes the sum by the change at that key. */
  lemma SumUpdate<K>(m: map<K, int>, k: K, v: int)
    ensures Sum(m[k := v]) == Sum(m) - At(m, k) + v
  {
    SumRemove(m[k := v], k);
    if k in m {
      SumRemove(m, k);
      assert m[k := v] - {k} == m - {k};
    } else {
      assert m[k := v] - {k} == m;
    }
  }

  /** How many elements satisfy a predicate. */
  function Count<T>(xs: seq<T>, p: T -> bool): nat {
    if xs == [] then 0 else (if p(xs[0]) then 1 else 0) + Count(xs[1..], p)
  }

  /** The elements that satisfy a predicate, in order. */
  function Filter<T(!new)>(xs: seq<T>, p: T -> bool): (r: seq<T>)
    ensures |r| == Count(xs, p) <= |xs|
    ensures forall x :: x in r <==> x in xs && p(x)
  {
    if xs == [] then [] else
      assert xs == [xs[0]] + xs[1..];
      (if p(xs[0]) then [xs[0]] else []) + Filter(xs[1..], p)
  }

  lemma CountSnoc<T>(xs: seq<T>, x: T, p: T -> bool)
    ensures Count(xs + [x], p) == Count(xs, p) + (if p(x) then 1 else 0)
  {
    CountConcat(xs, [x], p);
  }

  lemma CountConcat<T>(xs: seq<T>, ys: seq<T>, p: T -> bool)
    ensures Count(xs + ys, p) == Count(xs, p) + Count(ys, p)
  {
    if xs == [] {
      assert xs + ys == ys;
    } else {
      assert (xs + ys)[1..] == xs[1..] + ys;
    }
  }

  function Without<T>(xs: seq<T>, i: nat): seq<T>
    requires i < |xs|
  {
    xs[..i] + xs[i + 1..]
  }

  lemma CountWithout<T>(xs: seq<T>, i: nat, p: T -> bool)
    requires i < |xs|
    ensures Count(xs, p) == Count(Without(xs, i), p) + (if p(xs[i]) then 1 else 0)
  {
    hide Count;
    var before, after := xs[..i], xs[i + 1..];
    assert xs == before + [xs[i]] + after && Without(xs, i) == before + after;
    CountConcat(before + [xs[i]], after, p);
    CountSnoc(before, xs[i], p);
    CountConcat(before, after, p);
  }

  lemma MultisetWithout<T>(xs: seq<T>, i: nat)
    requires i < |xs|
    ensures multiset(Without(xs, i)) == multiset(xs) - multiset{xs[i]}
  {
    assert xs == xs[..i] + [xs[i]] + xs[i + 1..];
  }

  /** Counting does not depend on order. */
  lemma {:induction false} CountPermutation<T>(xs: seq<T>, ys: seq<T>, p: T -> bool)
    requires multiset(xs) == multiset(ys)
    ensures Count(xs, p) == Count(ys, p)
  {
    if xs == [] {
      assert |ys| == |multiset(ys)| == 0;
    } else {
      assert xs[0] in multiset(ys);
      var i :| 0 <= i < |ys| && ys[i] == xs[0];
      MultisetWithout(xs, 0);
      MultisetWithout(ys, i);
      CountWithout(xs, 0, p);
      CountWithout(ys, i, p);
      CountPermutation(Without(xs, 0), Without(ys, i), p);
    }
  }

  /** A predicate that holds of fewer elements counts fewer, with equality only when they agree. */
  lemma CountImplies<T>(xs: seq<T>, p: T -> bool, q: T -> bool)
    requires forall x :: x in xs && p(x) ==> q(x)
    ensures Count(xs, p) <= Count(xs, q)
    ensures Count(xs, p) == Count(xs, q) <==> forall x :: x in xs && q(x) ==> p(x)
  {
    if xs != [] {
      assert xs == [xs[0]] + xs[1..];
      CountImplies(xs[1..], p, q);
    }
  }

  lemma CountPositive<T>(xs: seq<T>, p: T -> bool)
    ensures Count(xs, p) > 0 <==> exists x :: x in xs && p(x)
  {
    if xs != [] {
      assert xs == [xs[0]] + xs[1..];
    }
  }

  /** Filtering twice is filtering by both. */
  lemma {:induction false} CountFilter<T(!new)>(xs: seq<T>, p: T -> bool, q: T -> bool, both: T -> bool)
    requires forall x :: both(x) <==> p(x) && q(x)
    ensures Count(Filter(xs, p), q) == Count(xs, both)
  {
    if xs != [] {
      CountFilter(xs[1..], p, q, both);
      var head := if p(xs[0]) then [xs[0]] else [];
      CountConcat(head, Filter(xs[1..], p), q);
    }
  }

  lemma FilterSame<T(!new)>(xs: seq<T>, p: T -> bool, q: T -> bool)
    requires forall x :: x in xs ==> (p(x) <==> q(x))
    ensures Filter(xs, p) == Filter(xs, q)
  {
    if xs != [] {
      assert xs == [xs[0]] + xs[1..];
      FilterSame(xs[1..], p, q);
    }
  }

  lemma FilterPermutation<T(!new)>(xs: seq<T>, ys: seq<T>, p: T -> bool)
    requires multiset(xs) == multiset(ys)
    ensures multiset(Filter(xs, p)) == multiset(Filter(ys, p))
  {
    forall x: T
      ensures multiset(Filter(xs, p))[x] == multiset(Filter(ys, p))[x]
    {
      FilterMultiplicity(xs, p, x);
      FilterMultiplicity(ys, p, x);
    }
  }

  lemma {:induction false} FilterMultiplicity<T(!new)>(xs: seq<T>, p: T -> bool, x: T)
    ensures multiset(Filter(xs, p))[x] == if p(x) then multiset(xs)[x] else 0
  {
    if xs != [] {
      var head := if p(xs[0]) then [xs[0]] else [];
      FilterMultiplicity(xs[1..], p, x);
      assert xs == [xs[0]] + xs[1..];
      assert Filter(xs, p) == head + Filter(xs[1..], p);
      assert multiset(Filter(xs, p)) == multiset(head) + multiset(Filter(xs[1..], p));
    }
  }

  // ------------------------------------------------------------------ tallying

  /** counts[k]++ */
  function Bump<K>(m: map<K, int>, k: K): map<K, int> {
    m[k := At(m, k) + 1]
  }

  /** How many elements fall under each key: a tally kept by a loop over the elements. */
  function Tally<T, K>(xs: seq<T>, key: T -> K): map<K, int> {
    if xs == [] then map[] else Bump(Tally(xs[..|xs| - 1], key), key(xs[|xs| - 1]))
  }

  /** A tally holds each key's true count, only keys that occur, and sums to the number of elements. */
  lemma {:induction false} TallyCounts<T(!new), K>(xs: seq<T>, key: T -> K, k: K, under: T -> bool)
    requires forall x :: under(x) <==> key(x) == k
    ensures At(Tally(xs, key), k) == Count(xs, under)
    ensures k in Tally(xs, key) <==> Count(xs, under) > 0
  {
    if xs != [] {
      var last := |xs| - 1;
      TallyCounts(xs[..last], key, k, under);
      assert xs == xs[..last] + [xs[last]];
      CountSnoc(xs[..last], xs[last], under);
    }
  }

  lemma {:induction false} TallySums<T, K>(xs: seq<T>, key: T -> K)
    ensures Sum(Tally(xs, key)) == |xs|
  {
    if xs != [] {
      var before := Tally(xs[..|xs| - 1], key);
      TallySums(xs[..|xs| - 1], key);
      SumUpdate(before, key(xs[|xs| - 1]), At(before, key(xs[|xs| - 1])) + 1);
    }
  }

  /** A tally does not depend on the order of its elements. */
  lemma TallyPermutation<T(!new), K(!new)>(xs: seq<T>, ys: seq<T>, key: T -> K)
    requires multiset(xs) == multiset(ys)
    ensures Tally(xs, key) == Tally(ys, key)
  {
    forall k: K
      ensures k in Tally(xs, key) <==> k in Tally(ys, key)
      ensures At(Tally(xs, key), k) == At(Tally(ys, key), k)
    {
      var under := x => key(x) == k;
      TallyCounts(xs, key, k, under);
      TallyCounts(ys, key, k, under);
      CountPermutation(xs, ys, under);
    }
    forall k | k in Tally(xs, key)
      ensures k in Tally(ys, key) && Tally(xs, key)[k] == Tally(ys, key)[k]
    {
      assert At(Tally(xs, key), k) == At(Tally(ys, key), k);
    }
    assert Tally(xs, key).Keys == Tally(ys, key).Keys;
  }

  /** Asking a source for one count per name and keeping the positive ones. */
  function Census<K>(names: seq<K>, count: K -> int): map<K, int> {
    if names == [] then map[]
    else
      var before, last := Census(names[..|names| - 1], count), names[|names| - 1];
      if count(last) > 0 then before[last := count(last)] else before
  }

  lemma {:induction false} CensusHolds<K>(names: seq<K>, count: K -> int, k: K)
    ensures k in Census(names, count) <==> k in names && count(k) > 0
    ensures k in Census(names, count) ==> Census(names, count)[k] == count(k)
  {
    if names != [] {
      CensusHolds(names[..|names| - 1], count, k);
      assert names == names[..|names| - 1] + [names[|names| - 1]];
    }
  }

  /** When each name's count is the true number of elements under it, the census is the tally of the
      elements whose key is named, however often a name is repeated. */
  lemma CensusIsTally<T(!new), K(!new)>(xs: seq<T>, key: T -> K, names: seq<K>, count: K -> int, named: T -> bool)
    requires forall x :: named(x) <==> key(x) in names
    requires forall k :: k in names ==> count(k) == At(Tally(xs, key), k)
    ensures Census(names, count) == Tally(Filter(xs, named), key)
    ensures Sum(Census(names, count)) == Count(xs, named)
  {
    var census, tally := Census(names, count), Tally(Filter(xs, named), key);
    forall k: K
      ensures k in census <==> k in tally
      ensures k in census ==> census[k] == tally[k]
    {
      CensusHolds(names, count, k);
      var under, both := x => key(x) == k, x => named(x) && key(x) == k;
      TallyCounts(xs, key, k, under);
      TallyCounts(Filter(xs, named), key, k, under);
      CountFilter(xs, named, under, both);
      if k in names {
        CountImplies(xs, both, under);
      } else {
        CountPositive(xs, both);
      }
    }
    assert census.Keys == tally.Keys;
    assert census == tally;
    TallySums(Filter(xs, named), key);
  }

  // ------------------------------------------------------------------- sorting

  /** A comparison under which any two elements compare and comparisons chain. */
  ghost predicate TotalPreorder<T(!new)>(le: (T, T) -> bool) {
    && (forall x, y :: le(x, y) || le(y, x))
    && (forall x, y, z :: le(x, y) && le(y, z) ==> le(x, z))
  }

  predicate Sorted<T>(xs: seq<T>, le: (T, T) -> bool) {
    forall i, j :: 0 <= i < j < |xs| ==> le(xs[i], xs[j])
  }

  function Insert<T>(x: T, xs: seq<T>, le: (T, T) -> bool): (r: seq<T>)
    ensures |r| == |xs| + 1
  {
    if xs == [] then [x] else if le(x, xs[0]) then [x] + xs else [xs[0]] + Insert(x, xs[1..], le)
  }

  /** The stable sort of a sequence: what sort.SliceStable leaves, and what sort.Slice leaves when no
      two different elements compare alike. */
  function Sort<T>(xs: seq<T>, le: (T, T) -> bool): (r: seq<T>)
    ensures |r| == |xs|
  {
    if xs == [] then [] else Insert(xs[0], Sort(xs[1..], le), le)
  }

  lemma InsertKeeps<T>(x: T, xs: seq<T>, le: (T, T) -> bool)
    ensures multiset(Insert(x, xs, le)) == multiset(xs) + multiset{x}
  {
    if xs != [] && !le(x, xs[0]) {
      InsertKeeps(x, xs[1..], le);
      assert xs == [xs[0]] + xs[1..];
    }
  }

  lemma InsertSorts<T(!new)>(x: T, xs: seq<T>, le: (T, T) -> bool)
    requires TotalPreorder(le) && Sorted(xs, le)
    ensures Sorted(Insert(x, xs, le), le)
  {
    if xs != [] && !le(x, xs[0]) {
      var rest := Insert(x, xs[1..], le);
      InsertSorts(x, xs[1..], le);
      InsertKeeps(x, xs[1..], le);
      forall i | 0 <= i < |rest|
        ensures le(xs[0], rest[i])
      {
        assert rest[i] in multiset(rest);
        assert rest[i] == x || rest[i] in xs[1..];
      }
    }
  }

  /** Sorting permutes, and orders. */
  lemma {:induction false} SortSorts<T(!new)>(xs: seq<T>, le: (T, T) -> bool)
    requires TotalPreorder(le)
    ensures Sorted(Sort(xs, le), le)
    ensures multiset(Sort(xs, le)) == multiset(xs)
  {
    hide Insert, TotalPreorder;
    if xs != [] {
      SortSorts(xs[1..], le);
      InsertSorts(xs[0], Sort(xs[1..], le), le);
      InsertKeeps(xs[0], Sort(xs[1..], le), le);
      assert xs == [xs[0]] + xs[1..];
    }
  }

  lemma {:induction false} InsertIsStable<T(!new)>(x: T, xs: seq<T>, le: (T, T) -> bool, alike: T -> bool)
    requires forall a, b :: alike(a) && alike(b) ==> le(a, b)
    ensures Filter(Insert(x, xs, le), alike) == (if alike(x) then [x] else []) + Filter(xs, alike)
  {
    if xs != [] {
      if le(x, xs[0]) {
        assert ([x] + xs)[1..] == xs;
      } else {
        InsertIsStable(x, xs[1..], le, alike);
        assert Insert(x, xs, le)[1..] == Insert(x, xs[1..], le);
      }
    }
  }

  /** And is stable: elements that compare alike keep the order they came in. */
  lemma {:induction false} SortIsStable<T(!new)>(xs: seq<T>, le: (T, T) -> bool, alike: T -> bool)
    requires forall a, b :: alike(a) && alike(b) ==> le(a, b)
    ensures Filter(Sort(xs, le), alike) == Filter(xs, alike)
  {
    if xs != [] {
      SortIsStable(xs[1..], le, alike);
      InsertIsStable(xs[0], Sort(xs[1..], le), le, alike);
    }
  }

  /** Elements compare with themselves, and no two different ones alike. */
  ghost predicate Strict<T(!new)>(xs: seq<T>, le: (T, T) -> bool) {
    && (forall x :: x in xs ==> le(x, x))
    && forall x, y :: x in xs && y in xs && le(x, y) && le(y, x) ==> x == y
  }

  /** Then an arrangement in order is the only one: any sort leaves it. */
  lemma {:induction false} SortedIsUnique<T(!new)>(xs: seq<T>, ys: seq<T>, le: (T, T) -> bool)
    requires multiset(xs) == multiset(ys) && Strict(xs, le)
    requires Sorted(xs, le) && Sorted(ys, le)
    ensures xs == ys
  {
    hide Sorted, Strict;
    SameLength(xs, ys);
    if xs != [] {
      FirstsAgree(xs, ys, le);
      TailsAgree(xs, ys);
      TailSorted(xs, le);
      TailSorted(ys, le);
      TailStrict(xs, le);
      SortedIsUnique(xs[1..], ys[1..], le);
      assert xs == [xs[0]] + xs[1..] && ys == [ys[0]] + ys[1..];
    }
  }

  lemma SameLength<T>(xs: seq<T>, ys: seq<T>)
    requires multiset(xs) == multiset(ys)
    ensures |xs| == |ys|
  {
    assert |multiset(xs)| == |xs| && |multiset(ys)| == |ys|;
  }

  lemma TailsAgree<T>(xs: seq<T>, ys: seq<T>)
    requires multiset(xs) == multiset(ys) && xs != [] && ys != [] && xs[0] == ys[0]
    ensures multiset(xs[1..]) == multiset(ys[1..])
  {
    MultisetWithout(xs, 0);
    MultisetWithout(ys, 0);
    assert Without(xs, 0) == xs[1..] && Without(ys, 0) == ys[1..];
  }

  lemma TailSorted<T>(xs: seq<T>, le: (T, T) -> bool)
    requires xs != [] && Sorted(xs, le)
    ensures Sorted(xs[1..], le)
  {}

  lemma TailStrict<T(!new)>(xs: seq<T>, le: (T, T) -> bool)
    requires xs != [] && Strict(xs, le)
    ensures Strict(xs[1..], le)
  {
    assert forall x :: x in xs[1..] ==> x in xs;
  }

  lemma FirstsAgree<T(!new)>(xs: seq<T>, ys: seq<T>, le: (T, T) -> bool)
    requires multiset(xs) == multiset(ys) && Strict(xs, le) && xs != [] && ys != []
    requires Sorted(xs, le) && Sorted(ys, le)
    ensures xs[0] == ys[0]
  {
    assert xs[0] in multiset(xs) && ys[0] in multiset(ys);
    assert ys[0] in xs;
    var i :| 0 <= i < |ys| && ys[i] == xs[0];
    var j :| 0 <= j < |xs| && xs[j] == ys[0];
    assert le(ys[0], ys[i]) && le(xs[0], xs[j]);
  }
}
