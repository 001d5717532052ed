/**
 * The array primitives every store operation and every summary is built
 * from: `findIndex` by id, `filter` out an id, `filter` by a predicate and
 * `reduce` to a sum.
 */
module Collections {
  import opened Wrappers

  /** Position of the first element whose key is `id` (`findIndex`, with -1 as None). */
  function IndexOf<T>(s: seq<T>, id: string, key: T -> string): (r: Option<nat>)
    ensures r.Some? ==> r.value < |s| && key(s[r.value]) == id
    ensures r.Some? ==> forall j :: 0 <= j < r.value ==> key(s[j]) != id
    ensures r.None? <==> forall j :: 0 <= j < |s| ==> key(s[j]) != id
  {
    if |s| == 0 then None
    else if key(s[0]) == id then Some(0)
    else
      match IndexOf(s[1..], id, key)
      case None => None
      case Some(k) => Some(k + 1)
  }

  /** An element appended with a key no earlier element has is found at the end. */
  lemma {:induction false} IndexOfAppendFresh<T>(s: seq<T>, x: T, key: T -> string)
    requires forall j :: 0 <= j < |s| ==> key(s[j]) != key(x)
    ensures IndexOf(s + [x], key(x), key) == Some(|s|)
  {
    if |s| > 0 {
      assert (s + [x])[1..] == s[1..] + [x];
      IndexOfAppendFresh(s[1..], x, key);
    }
  }

  /** No two elements share a key. */
  ghost predicate UniqueKeys<T>(s: seq<T>, key: T -> string) {
    forall i, j :: 0 <= i < j < |s| ==> key(s[i]) != key(s[j])
  }

  /** `s.filter(x => key(x) !== id)`: every element whose key is not `id`. */
  function Without<T>(s: seq<T>, id: string, key: T -> string): (r: seq<T>)
    ensures |r| <= |s|
  {
    if |s| == 0 then []
    else (if key(s[0]) == id then [] else [s[0]]) + Without(s[1..], id, key)
  }

  /** What is kept is exactly the elements whose key is not `id`. */
  lemma {:induction false} WithoutMembers<T>(s: seq<T>, id: string, key: T -> string)
    ensures forall j :: 0 <= j < |Without(s, id, key)| ==>
      Without(s, id, key)[j] in s && key(Without(s, id, key)[j]) != id
    ensures forall j :: 0 <= j < |s| && key(s[j]) != id ==> s[j] in Without(s, id, key)
  {
    if |s| > 0 {
      WithoutMembers(s[1..], id, key);
      assert s == [s[0]] + s[1..];
    }
  }

  /** Removing an id works piece by piece, so the kept elements stay in order. */
  lemma {:induction false} WithoutConcat<T>(a: seq<T>, b: seq<T>, id: string, key: T -> string)
    ensures Without(a + b, id, key) == Without(a, id, key) + Without(b, id, key)
  {
    if |a| == 0 {
      assert a + b == b;
    } else {
      assert (a + b)[1..] == a[1..] + b;
      WithoutConcat(a[1..], b, id, key);
    }
  }

  /** Removing an id that no element carries changes nothing. */
  lemma {:induction false} WithoutAbsent<T>(s: seq<T>, id: string, key: T -> string)
    requires forall j :: 0 <= j < |s| ==> key(s[j]) != id
    ensures Without(s, id, key) == s
  {
    if |s| > 0 {
      WithoutAbsent(s[1..], id, key);
      assert [s[0]] + s[1..] == s;
    }
  }

  /** Removing an id keeps the remaining keys unique. */
  lemma {:induction false} WithoutKeepsUnique<T>(s: seq<T>, id: string, key: T -> string)
    requires UniqueKeys(s, key)
    ensures UniqueKeys(Without(s, id, key), key)
  {
    if |s| > 0 {
      var tail := s[1..];
      assert UniqueKeys(tail, key) by {
        forall i, j | 0 <= i < j < |tail| ensures key(tail[i]) != key(tail[j]) {
          assert key(s[i + 1]) != key(s[j + 1]);
        }
      }
      WithoutKeepsUnique(tail, id, key);
      WithoutMembers(tail, id, key);
      var rest := Without(tail, id, key);
      if key(s[0]) != id {
        var r := [s[0]] + rest;
        forall i, j | 0 <= i < j < |r| ensures key(r[i]) != key(r[j]) {
          if i == 0 {
            assert r[j] == rest[j - 1] && rest[j - 1] in tail;
            var k :| 0 <= k < |tail| && tail[k] == rest[j - 1];
            assert key(s[0]) != key(s[k + 1]);
          } else {
            assert r[i] == rest[i - 1] && r[j] == rest[j - 1];
          }
        }
      }
    }
  }

  /** Removing the key of element i, which no other element carries, removes just that element. */
  lemma {:induction false} WithoutOnly<T>(s: seq<T>, i: nat, key: T -> string)
    requires i < |s|
    requires forall j :: 0 <= j < |s| && j != i ==> key(s[j]) != key(s[i])
    ensures Without(s, key(s[i]), key) == s[..i] + s[i + 1..]
  {
    var id := key(s[i]);
    if i == 0 {
      WithoutAbsent(s[1..], id, key);
    } else {
      WithoutOnly(s[1..], i - 1, key);
      assert s[1..][..i - 1] + s[1..][i..] == s[1..i] + s[i + 1..];
      assert [s[0]] + s[1..i] == s[..i];
    }
  }

  /** `s.filter(p)`. */
  function Filter<T>(s: seq<T>, p: T -> bool): (r: seq<T>)
    ensures |r| <= |s|
  {
    if |s| == 0 then []
    else (if p(s[0]) then [s[0]] else []) + Filter(s[1..], p)
  }

  /** What is kept is exactly the elements satisfying `p`. */
  lemma {:induction false} FilterMembers<T>(s: seq<T>, p: T -> bool)
    ensures forall j :: 0 <= j < |Filter(s, p)| ==> Filter(s, p)[j] in s && p(Filter(s, p)[j])
    ensures forall j :: 0 <= j < |s| && p(s[j]) ==> s[j] in Filter(s, p)
  {
    if |s| > 0 {
      FilterMembers(s[1..], p);
      assert s == [s[0]] + s[1..];
    }
  }

  lemma {:induction false} FilterConcat<T>(a: seq<T>, b: seq<T>, p: T -> bool)
    ensures Filter(a + b, p) == Filter(a, p) + Filter(b, p)
  {
    if |a| == 0 {
      assert a + b == b;
    } else {
      assert (a + b)[0] == a[0];
      assert (a + b)[1..] == a[1..] + b;
      FilterConcat(a[1..], b, p);
      var head := if p(a[0]) then [a[0]] else [];
      assert Filter(a + b, p) == head + Filter(a[1..] + b, p);
      assert Filter(a, p) == head + Filter(a[1..], p);
    }
  }

  /** `s.reduce((acc, x) => acc + f(x), 0)`. */
  function Sum<T>(s: seq<T>, f: T -> real): real {
    if |s| == 0 then 0.0 else f(s[0]) + Sum(s[1..], f)
  }

  lemma {:induction false} SumConcat<T>(a: seq<T>, b: seq<T>, f: T -> real)
    ensures Sum(a + b, f) == Sum(a, f) + Sum(b, f)
  {
    if |a| == 0 {
      assert a + b == b;
    } else {
      assert (a + b)[1..] == a[1..] + b;
      SumConcat(a[1..], b, f);
    }
  }

  /** Replacing one element changes the sum by the difference of the two terms. */
  lemma SumUpdate<T>(s: seq<T>, i: nat, x: T, f: T -> real)
    requires i < |s|
    ensures Sum(s[i := x], f) == Sum(s, f) - f(s[i]) + f(x)
  {
    assert s == s[..i] + [s[i]] + s[i + 1..];
    assert s[i := x] == s[..i] + [x] + s[i + 1..];
    SumConcat(s[..i] + [s[i]], s[i + 1..], f);
    SumConcat(s[..i], [s[i]], f);
    SumConcat(s[..i] + [x], s[i + 1..], f);
    SumConcat(s[..i], [x], f);
  }

  /** Every element satisfies p or fails it, so the two filtered sums add up to the whole. */
  lemma {:induction false} SumPartition<T>(s: seq<T>, p: T -> bool, q: T -> bool, f: T -> real)
    requires forall j :: 0 <= j < |s| ==> (q(s[j]) <==> !p(s[j]))
    ensures Sum(Filter(s, p), f) + Sum(Filter(s, q), f) == Sum(s, f)
  {
    if |s| > 0 {
      SumPartition(s[1..], p, q, f);
      SumConcat(if p(s[0]) then [s[0]] else [], Filter(s[1..], p), f);
      SumConcat(if q(s[0]) then [s[0]] else [], Filter(s[1..], q), f);
    }
  }

  /** The term `f(x)` where `p(x)` holds, and 0 elsewhere. */
  function Masked<T>(p: T -> bool, f: T -> real): T -> real {
    x => if p(x) then f(x) else 0.0
  }

  /** Summing the filtered elements is summing all of them with the others counted as 0. */
  lemma {:induction false} SumFilter<T>(s: seq<T>, p: T -> bool, f: T -> real)
    ensures Sum(Filter(s, p), f) == Sum(s, Masked(p, f))
  {
    if |s| > 0 {
      SumFilter(s[1..], p, f);
      SumConcat(if p(s[0]) then [s[0]] else [], Filter(s[1..], p), f);
    }
  }

  /** A sum of terms each no larger than another's is no larger. */
  lemma {:induction false} SumMonotone<T>(s: seq<T>, f: T -> real, g: T -> real)
    requires forall j :: 0 <= j < |s| ==> f(s[j]) <= g(s[j])
    ensures Sum(s, f) <= Sum(s, g)
  {
    if |s| > 0 {
      SumMonotone(s[1..], f, g);
    }
  }

  /** A sum of non-negative terms is non-negative. */
  lemma {:induction false} SumNonNegative<T>(s: seq<T>, f: T -> real)
    requires forall j :: 0 <= j < |s| ==> 0.0 <= f(s[j])
    ensures 0.0 <= Sum(s, f)
  {
    if |s| > 0 {
      SumNonNegative(s[1..], f);
    }
  }

  /** Elements kept by a filter are elements of the input, so they inherit a bound. */
  lemma FilterKeepsBound<T>(s: seq<T>, p: T -> bool, f: T -> real)
    requires forall j :: 0 <= j < |s| ==> 0.0 <= f(s[j])
    ensures forall j :: 0 <= j < |Filter(s, p)| ==> 0.0 <= f(Filter(s, p)[j])
  {
    FilterMembers(s, p);
    forall j | 0 <= j < |Filter(s, p)|
      ensures 0.0 <= f(Filter(s, p)[j])
    {
      var x := Filter(s, p)[j];
      assert x in Filter(s, p);
      var k :| 0 <= k < |s| && s[k] == x;
    }
  }
}
