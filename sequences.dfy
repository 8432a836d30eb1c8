/** Positions in a list and the list edits of java.util.List that the
    modelled code uses: `indexOf`, `lastIndexOf`, `add(i, x)`, `remove(i)`
    and `remove(Object)`. Strings are lists of characters, so
    `String.indexOf(char)` is FirstIndex as well. */
module Sequences {

  /** The first position of x, or -1. */
  function FirstIndex<T(==)>(xs: seq<T>, x: T): (r: int)
    ensures -1 <= r < |xs|
    ensures r == -1 <==> x !in xs
    ensures r >= 0 ==> xs[r] == x && x !in xs[..r]
  {
    if |xs| == 0 then -1
    else if xs[0] == x then 0
    else
      var k := FirstIndex(xs[1..], x);
      if k < 0 then
        assert xs == [xs[0]] + xs[1..];
        -1
      else
        assert xs[..k + 1] == [xs[0]] + xs[1..][..k];
        k + 1
  }

  /** The last position of x, or -1. */
  function LastIndex<T(==)>(xs: seq<T>, x: T): (r: int)
    ensures -1 <= r < |xs|
    ensures r == -1 <==> x !in xs
    ensures r >= 0 ==> xs[r] == x && x !in xs[r + 1..]
  {
    if |xs| == 0 then -1
    else if xs[|xs| - 1] == x then |xs| - 1
    else
      var init := xs[..|xs| - 1];
      var k := LastIndex(init, x);
      if k < 0 then
        assert xs == init + [xs[|xs| - 1]];
        k
      else
        assert xs[k + 1..] == init[k + 1..] + [xs[|xs| - 1]];
        k
  }

  /** A position holding x with no x before it is the first position of x. */
  lemma {:induction false} FirstIndexAt<T>(xs: seq<T>, x: T, k: nat)
    requires k < |xs| && xs[k] == x && x !in xs[..k]
    ensures FirstIndex(xs, x) == k
  {
    if k > 0 {
      assert xs[0] == xs[..k][0];
      assert xs[1..][..k - 1] == xs[1..k];
      assert xs[1..k] == xs[..k][1..];
      FirstIndexAt(xs[1..], x, k - 1);
    }
  }

  /** A position holding x with no x after it is the last position of x. */
  lemma {:induction false} LastIndexAt<T>(xs: seq<T>, x: T, k: nat)
    requires k < |xs| && xs[k] == x && x !in xs[k + 1..]
    ensures LastIndex(xs, x) == k
  {
    if k < |xs| - 1 {
      var init := xs[..|xs| - 1];
      assert xs[|xs| - 1] == xs[k + 1..][|xs| - 1 - (k + 1)];
      assert init[k + 1..] == xs[k + 1..|xs| - 1];
      assert xs[k + 1..|xs| - 1] == xs[k + 1..][..|xs| - 1 - (k + 1)];
      LastIndexAt(init, x, k);
    }
  }

  /** `list.remove(i)`. */
  function RemoveAt<T>(xs: seq<T>, i: nat): (r: seq<T>)
    requires i < |xs|
    ensures |r| == |xs| - 1
    ensures forall j :: 0 <= j < i ==> r[j] == xs[j]
    ensures forall j :: i <= j < |r| ==> r[j] == xs[j + 1]
  {
    xs[..i] + xs[i + 1..]
  }

  /** Removing position k keeps every element unlike the one there, and
      adds none. */
  lemma RemoveAtKeepsOthers<T>(xs: seq<T>, k: nat)
    requires k < |xs|
    ensures forall x :: x in RemoveAt(xs, k) ==> x in xs
    ensures forall i :: 0 <= i < |xs| && xs[i] != xs[k] ==> xs[i] in RemoveAt(xs, k)
  {
    var r := RemoveAt(xs, k);
    forall i | 0 <= i < |xs| && xs[i] != xs[k]
      ensures xs[i] in r
    {
      if i < k {
        assert r[i] == xs[i];
      } else {
        assert r[i - 1] == xs[i];
      }
    }
  }

  /** A list that is either xs or xs without position k, where the element
      at k fails `keep`: at most one element shorter, nothing new, and every
      element that `keep` accepts still there. */
  lemma RemovedAtMostOne<T>(xs: seq<T>, r: seq<T>, k: int, keep: T -> bool)
    requires k < |xs|
    requires k < 0 ==> r == xs
    requires k >= 0 ==> r == RemoveAt(xs, k) && !keep(xs[k])
    ensures |xs| - 1 <= |r| <= |xs|
    ensures forall x :: x in r ==> x in xs
    ensures forall i :: 0 <= i < |xs| && keep(xs[i]) ==> xs[i] in r
  {
    if k >= 0 {
      RemoveAtKeepsOthers(xs, k);
    }
  }

  /** `list.add(i, x)`. */
  function InsertAt<T>(xs: seq<T>, i: nat, x: T): (r: seq<T>)
    requires i <= |xs|
    ensures |r| == |xs| + 1 && r[i] == x
    ensures forall j :: 0 <= j < i ==> r[j] == xs[j]
    ensures forall j :: i < j < |r| ==> r[j] == xs[j - 1]
  {
    xs[..i] + [x] + xs[i..]
  }

  /** Removing what was inserted at the same place gives the list back. */
  lemma RemoveInserted<T>(xs: seq<T>, i: nat, x: T)
    requires i <= |xs|
    ensures RemoveAt(InsertAt(xs, i, x), i) == xs
  {
    var r := RemoveAt(InsertAt(xs, i, x), i);
    assert forall j :: 0 <= j < |xs| ==> r[j] == xs[j];
  }

  /** `list.remove(Object)`: drops the first occurrence, if any. */
  function RemoveFirst<T(==)>(xs: seq<T>, x: T): (r: seq<T>)
    ensures x !in xs ==> r == xs
    ensures x in xs ==> r == RemoveAt(xs, FirstIndex(xs, x))
  {
    var k := FirstIndex(xs, x);
    if k < 0 then xs else RemoveAt(xs, k)
  }

  /** Drops the last occurrence, if any. */
  function RemoveLast<T(==)>(xs: seq<T>, x: T): (r: seq<T>)
    ensures x !in xs ==> r == xs
    ensures x in xs ==> r == RemoveAt(xs, LastIndex(xs, x))
  {
    var k := LastIndex(xs, x);
    if k < 0 then xs else RemoveAt(xs, k)
  }

  /** Appending x and then dropping the last x gives the list back. */
  lemma RemoveLastAppended<T>(xs: seq<T>, x: T)
    ensures RemoveLast(xs + [x], x) == xs
  {
    assert LastIndex(xs + [x], x) == |xs|;
    assert (xs + [x])[..|xs|] == xs;
  }

  /** The first position whose element satisfies p, or -1: a loop that
      returns the first match. */
  function FirstWhere<T>(xs: seq<T>, p: T -> bool): (r: int)
    ensures -1 <= r < |xs|
    ensures r == -1 <==> forall k :: 0 <= k < |xs| ==> !p(xs[k])
    ensures r >= 0 ==> p(xs[r]) && forall k :: 0 <= k < r ==> !p(xs[k])
  {
    if |xs| == 0 then -1
    else if p(xs[0]) then 0
    else
      var k := FirstWhere(xs[1..], p);
      assert forall j :: 1 <= j < |xs| ==> xs[1..][j - 1] == xs[j];
      if k < 0 then -1 else k + 1
  }

  /** The elements that satisfy p, in order: a stream `filter`. */
  function Filter<T>(xs: seq<T>, p: T -> bool): (r: seq<T>)
    ensures |r| <= |xs|
    ensures forall k :: 0 <= k < |r| ==> p(r[k])
  {
    if |xs| == 0 then [] else (if p(xs[0]) then [xs[0]] else []) + Filter(xs[1..], p)
  }

  /** The filter keeps every element that satisfies p and adds none. */
  lemma {:induction false} FilterExact<T>(xs: seq<T>, p: T -> bool)
    ensures forall x :: x in Filter(xs, p) ==> x in xs
    ensures forall k :: 0 <= k < |xs| && p(xs[k]) ==> xs[k] in Filter(xs, p)
  {
    if |xs| > 0 {
      FilterExact(xs[1..], p);
      assert forall k :: 1 <= k < |xs| ==> xs[k] == xs[1..][k - 1];
    }
  }

  /** `remove(Object)` for each of ms in turn. */
  function RemoveEach<T(==)>(xs: seq<T>, ms: seq<T>): seq<T> {
    if |ms| == 0 then xs else RemoveEach(RemoveFirst(xs, ms[0]), ms[1..])
  }

  /** Removing an element other than the head leaves the head in front. */
  lemma RemoveFirstCons<T>(x: T, rest: seq<T>, m: T)
    requires x != m
    ensures RemoveFirst([x] + rest, m) == [x] + RemoveFirst(rest, m)
  {
    var xs := [x] + rest;
    if m in rest {
      var k := FirstIndex(rest, m);
      assert xs[..k + 1] == [x] + rest[..k];
      FirstIndexAt(xs, m, k + 1);
      var r := RemoveAt(xs, k + 1);
      var r' := [x] + RemoveAt(rest, k);
      assert |r| == |r'|;
      forall j | 0 <= j < |r| ensures r[j] == r'[j] {
        if j > 0 {
          assert r'[j] == RemoveAt(rest, k)[j - 1];
        }
      }
      assert r == r';
    } else {
      assert m !in xs;
    }
  }

  lemma {:induction false} RemoveEachCons<T>(x: T, rest: seq<T>, ms: seq<T>)
    requires x !in ms
    ensures RemoveEach([x] + rest, ms) == [x] + RemoveEach(rest, ms)
    decreases |ms|
  {
    if |ms| > 0 {
      RemoveFirstCons(x, rest, ms[0]);
      RemoveEachCons(x, RemoveFirst(rest, ms[0]), ms[1..]);
    }
  }

  /** Removing, one at a time, every element that satisfies p leaves
      exactly the elements that do not. */
  lemma {:induction false} RemoveEachFiltered<T>(xs: seq<T>, p: T -> bool, q: T -> bool)
    requires forall x :: q(x) <==> !p(x)
    ensures RemoveEach(xs, Filter(xs, p)) == Filter(xs, q)
    decreases |xs|
  {
    if |xs| > 0 {
      var x, rest := xs[0], xs[1..];
      assert xs == [x] + rest;
      RemoveEachFiltered(rest, p, q);
      var ms := Filter(rest, p);
      if p(x) {
        assert Filter(xs, p) == [x] + ms;
        assert FirstIndex(xs, x) == 0;
        assert RemoveFirst(xs, x) == rest;
        assert Filter(xs, q) == Filter(rest, q);
      } else {
        assert Filter(xs, p) == ms;
        assert x !in ms by {
          forall k | 0 <= k < |ms| ensures ms[k] != x {
            assert p(ms[k]);
          }
        }
        RemoveEachCons(x, rest, ms);
        assert Filter(xs, q) == [x] + Filter(rest, q);
      }
    }
  }

  function Sum(xs: seq<int>): int {
    if |xs| == 0 then 0 else xs[0] + Sum(xs[1..])
  }

  lemma {:induction false} SumSnoc(xs: seq<int>, x: int)
    ensures Sum(xs + [x]) == Sum(xs) + x
  {
    if |xs| > 0 {
      assert (xs + [x])[1..] == xs[1..] + [x];
      SumSnoc(xs[1..], x);
    }
  }

  /** A prefix one element longer sums to that element more. */
  lemma PrefixSumStep(xs: seq<int>, k: nat)
    requires k < |xs|
    ensures Sum(xs[..k + 1]) == Sum(xs[..k]) + xs[k]
  {
    assert xs[..k + 1] == xs[..k] + [xs[k]];
    SumSnoc(xs[..k], xs[k]);
  }

  /** Over positive elements, every further element of a prefix adds at least one. */
  lemma {:induction false} PrefixSumGrows(xs: seq<int>, k: nat, m: nat)
    requires k <= m <= |xs|
    requires forall i :: 0 <= i < |xs| ==> xs[i] >= 1
    ensures Sum(xs[..k]) + (m - k) <= Sum(xs[..m])
    decreases m
  {
    if m > k {
      PrefixSumGrows(xs, k, m - 1);
      PrefixSumStep(xs, m - 1);
    }
  }

  /** A subset is no larger than its superset. */
  lemma SubsetCard<T>(a: set<T>, b: set<T>)
    requires a <= b
    ensures |a| <= |b|
  {
    assert b == a + (b - a);
  }
}
