/**
 * Collection behaviour the modelled code borrows from java.util:
 * a sort by a score in descending order (List.sort with a
 * reversed comparator, Stream.sorted) and removal of repeated elements
 * keeping first occurrences (LinkedHashSet, Stream.distinct).
 */
module Collections {

  /** Each score is at least the next one. */
  predicate SortedDesc<T>(xs: seq<(T, int)>) {
    forall i :: 0 < i < |xs| ==> xs[i - 1].1 >= xs[i].1
  }

  /** In a list sorted by descending score, every earlier score is at least every later one. */
  lemma {:induction false} SortedDescPairwise<T>(xs: seq<(T, int)>)
    requires SortedDesc(xs)
    ensures forall i, j :: 0 <= i < j < |xs| ==> xs[i].1 >= xs[j].1
    decreases |xs|
  {
    if |xs| > 1 {
      SortedDescPairwise(xs[1..]);
      assert forall j :: 1 <= j < |xs| ==> xs[j] == xs[1..][j - 1];
      forall j | 1 <= j < |xs| ensures xs[0].1 >= xs[j].1 {
        if j > 1 {
          assert xs[1..][0].1 >= xs[1..][j - 1].1;
        }
      }
    }
  }

  /** Places x before the first element whose score is not above x's. */
  function InsertDesc<T>(x: (T, int), xs: seq<(T, int)>): (r: seq<(T, int)>)
    requires SortedDesc(xs)
    ensures SortedDesc(r)
    ensures multiset(r) == multiset(xs) + multiset{x}
    ensures |r| == |xs| + 1
    ensures r[0] == x || (xs != [] && r[0] == xs[0])
  {
    if xs == [] || xs[0].1 <= x.1 then [x] + xs
    else
      assert multiset(xs) == multiset{xs[0]} + multiset(xs[1..]) by {
        assert xs == [xs[0]] + xs[1..];
      }
      [xs[0]] + InsertDesc(x, xs[1..])
  }

  /** An entry of a sorted list left out of its first `n` scores no higher than any of them. */
  lemma TopOfSorted<T>(xs: seq<(T, int)>, n: nat, x: (T, int))
    requires SortedDesc(xs) && n <= |xs| && x in xs && x !in xs[..n]
    ensures forall e :: e in xs[..n] ==> e.1 >= x.1
  {
    var j :| 0 <= j < |xs| && xs[j] == x;
    SortedDescPairwise(xs);
    forall e | e in xs[..n] ensures e.1 >= x.1 {
      var i :| 0 <= i < n && xs[..n][i] == e;
      assert xs[i] == e;
    }
  }

  /** A sort by score, highest first. */
  function SortDesc<T>(xs: seq<(T, int)>): (r: seq<(T, int)>)
    ensures SortedDesc(r)
    ensures multiset(r) == multiset(xs)
    ensures |r| == |xs|
  {
    if xs == [] then []
    else
      assert multiset(xs) == multiset(xs[1..]) + multiset{xs[0]} by {
        assert xs == [xs[0]] + xs[1..];
      }
      InsertDesc(xs[0], SortDesc(xs[1..]))
  }

  predicate NoDuplicates<T(==)>(xs: seq<T>) {
    forall i, j :: 0 <= i < j < |xs| ==> xs[i] != xs[j]
  }

  /** Index of the first occurrence of x in xs. */
  function FirstIndex<T(==)>(xs: seq<T>, x: T): (k: nat)
    requires x in xs
    ensures k < |xs| && xs[k] == x
    ensures forall j :: 0 <= j < k ==> xs[j] != x
  {
    if xs[0] == x then 0 else 1 + FirstIndex(xs[1..], x)
  }

  /** The elements of xs without repetitions, in order of first occurrence. */
  function Distinct<T(==,!new)>(xs: seq<T>): (r: seq<T>)
    ensures NoDuplicates(r)
    ensures forall x :: x in r <==> x in xs
    ensures |r| <= |xs|
    decreases |xs|
  {
    if xs == [] then []
    else
      var d := Distinct(xs[..|xs| - 1]);
      var last := xs[|xs| - 1];
      assert forall x :: x in xs <==> x in xs[..|xs| - 1] || x == last by {
        assert xs == xs[..|xs| - 1] + [last];
      }
      if last in d then d else d + [last]
  }

  lemma {:induction false} FirstIndexOfPrefix<T>(xs: seq<T>, n: nat, x: T)
    requires n <= |xs| && x in xs[..n]
    ensures x in xs && FirstIndex(xs, x) == FirstIndex(xs[..n], x)
  {
    var k := FirstIndex(xs[..n], x);
    assert xs[k] == x;
    forall j | 0 <= j < k ensures xs[j] != x {
      assert xs[j] == xs[..n][j];
    }
  }

  /** Distinct keeps the order in which elements first appear. */
  lemma {:induction false} DistinctKeepsFirstOrder<T(!new)>(xs: seq<T>)
    ensures forall i, j :: 0 <= i < j < |Distinct(xs)| ==>
      FirstIndex(xs, Distinct(xs)[i]) < FirstIndex(xs, Distinct(xs)[j])
    decreases |xs|
  {
    if xs != [] {
      var init := xs[..|xs| - 1];
      var d := Distinct(init);
      var last := xs[|xs| - 1];
      DistinctKeepsFirstOrder(init);
      assert init == xs[..|xs| - 1];
      forall y | y in d
        ensures FirstIndex(xs, y) == FirstIndex(init, y) < |xs| - 1
      {
        FirstIndexOfPrefix(xs, |xs| - 1, y);
      }
      if last !in d {
        assert FirstIndex(xs, last) == |xs| - 1;
        assert Distinct(xs) == d + [last];
      }
    }
  }

  /** `stream.limit(n)`: the first n elements. */
  function Take<T>(xs: seq<T>, n: nat): (r: seq<T>)
    ensures r <= xs && |r| == if |xs| <= n then |xs| else n
  {
    if |xs| <= n then xs else xs[..n]
  }

  /** `if (!xs.contains(x)) xs.add(x)`. */
  function AddIfAbsent<T(==,!new)>(xs: seq<T>, x: T): (r: seq<T>)
    ensures x in r && xs <= r && |r| <= |xs| + 1
    ensures forall y :: y in r <==> y in xs || y == x
    ensures x in xs <==> r == xs
    ensures NoDuplicates(xs) ==> NoDuplicates(r)
  {
    if x in xs then xs else xs + [x]
  }

  /** Adding the same id twice leaves the list as adding it once. */
  lemma AddIfAbsentIdempotent<T(!new)>(xs: seq<T>, x: T)
    ensures AddIfAbsent(AddIfAbsent(xs, x), x) == AddIfAbsent(xs, x)
  {
  }

  /** A list without repetitions is its own Distinct. */
  lemma {:induction false} DistinctOfDistinct<T(!new)>(xs: seq<T>)
    requires NoDuplicates(xs)
    ensures Distinct(xs) == xs
    decreases |xs|
  {
    if xs != [] {
      var init := xs[..|xs| - 1];
      DistinctOfDistinct(init);
      assert xs[|xs| - 1] !in init;
      assert xs == init + [xs[|xs| - 1]];
    }
  }

  /** Distinct keeps the first element in front. */
  lemma {:induction false} DistinctHead<T(!new)>(xs: seq<T>)
    requires xs != []
    ensures Distinct(xs) != [] && Distinct(xs)[0] == xs[0]
    decreases |xs|
  {
    if |xs| > 1 {
      var init := xs[..|xs| - 1];
      DistinctHead(init);
      assert init[0] == xs[0];
    }
  }
}
