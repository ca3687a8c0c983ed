/** How bbcrack ranks its candidates: `sorted(results, key=score,
    reverse=True)`, which is a stable sort (candidates with equal scores keep
    the order they were produced in), followed by the slice
    `results[:k]`. */
module Ranking {

  /** A candidate and its score: the tuples `(transform, score)` of stage 1
      and `(transform, score, data)` of stage 2. */
  datatype Scored<T> = Scored(item: T, score: int)

  /** Scores never increase from one element to a later one. */
  predicate NonIncreasing<T>(s: seq<Scored<T>>)
  {
    forall i, j | 0 <= i < j < |s| :: s[i].score >= s[j].score
  }

  /** The elements of `s` scoring `v`, in their order in `s`. */
  function Filter<T>(s: seq<Scored<T>>, v: int): seq<Scored<T>>
  {
    if s == [] then []
    else (if s[0].score == v then [s[0]] else []) + Filter(s[1..], v)
  }

  /** Inserts `x` before the first element scoring no more than it, so after
      every element scoring more. */
  function Insert<T>(x: Scored<T>, s: seq<Scored<T>>): seq<Scored<T>>
  {
    if s == [] || s[0].score <= x.score then [x] + s
    else [s[0]] + Insert(x, s[1..])
  }

  /** `sorted(s, key=score, reverse=True)`: insertion from the last element
      to the first, each before the elements of equal score already placed. */
  function SortDesc<T>(s: seq<Scored<T>>): seq<Scored<T>>
  {
    if s == [] then [] else Insert(s[0], SortDesc(s[1..]))
  }

  /** The slice `s[:k]` of Python: the first `k` elements, or for a negative
      `k` all but the last `-k`. */
  function PyTake<T>(s: seq<Scored<T>>, k: int): (r: seq<Scored<T>>)
    ensures k >= 0 ==> |r| == if k < |s| then k else |s|
    ensures k < 0 ==> |r| == if |s| + k > 0 then |s| + k else 0
    ensures r == s[..|r|]
  {
    if k >= 0 then (if k < |s| then s[..k] else s)
    else (if |s| + k > 0 then s[..|s| + k] else [])
  }

  /** The ranking of both stages: the `k` best candidates. */
  function TopK<T>(s: seq<Scored<T>>, k: int): seq<Scored<T>>
  {
    PyTake(SortDesc(s), k)
  }

  // ---------------------------------------------------------------------
  // Insertion.

  /** Inserting adds `x` to the elements and removes none. */
  lemma {:induction false} InsertPerm<T>(x: Scored<T>, s: seq<Scored<T>>)
    ensures multiset(Insert(x, s)) == multiset(s) + multiset{x}
  {
    if s != [] && s[0].score > x.score {
      InsertPerm(x, s[1..]);
      assert s == [s[0]] + s[1..];
    }
  }

  lemma ConsSorted<T>(h: Scored<T>, r: seq<Scored<T>>)
    requires NonIncreasing(r)
    requires forall e | e in r :: e.score <= h.score
    ensures NonIncreasing([h] + r)
  {
    forall i, j | 0 <= i < j < |[h] + r| ensures ([h] + r)[i].score >= ([h] + r)[j].score {
      if i > 0 {
        assert ([h] + r)[i] == r[i - 1] && ([h] + r)[j] == r[j - 1];
      } else {
        assert ([h] + r)[j] == r[j - 1];
      }
    }
  }

  /** Inserting into a list in descending order keeps it in descending
      order. */
  lemma {:induction false} InsertSorted<T>(x: Scored<T>, s: seq<Scored<T>>)
    requires NonIncreasing(s)
    ensures NonIncreasing(Insert(x, s))
  {
    if s == [] || s[0].score <= x.score {
      ConsSorted(x, s);
    } else {
      var rest := Insert(x, s[1..]);
      InsertSorted(x, s[1..]);
      InsertPerm(x, s[1..]);
      forall e | e in rest ensures e.score <= s[0].score {
        assert e in multiset(rest);
        if e != x {
          assert e in multiset(s[1..]);
          var i :| 0 <= i < |s[1..]| && s[1..][i] == e;
          assert s[i + 1] == e;
        }
      }
      ConsSorted(s[0], rest);
    }
  }

  /** Inserting adds `x` to the elements of its score, in front of them,
      and leaves the other scores alone. */
  lemma FilterCons<T>(y: Scored<T>, t: seq<Scored<T>>, v: int)
    ensures Filter([y] + t, v) == (if y.score == v then [y] else []) + Filter(t, v)
  {
    assert ([y] + t)[1..] == t;
  }

  lemma {:induction false} InsertFilter<T>(x: Scored<T>, s: seq<Scored<T>>, v: int)
    ensures Filter(Insert(x, s), v) == (if x.score == v then [x] else []) + Filter(s, v)
  {
    if s == [] || s[0].score <= x.score {
      FilterCons(x, s, v);
    } else {
      var rest := Insert(x, s[1..]);
      var e0 := if s[0].score == v then [s[0]] else [];
      var ex := if x.score == v then [x] else [];
      assert Insert(x, s) == [s[0]] + rest;
      InsertFilter(x, s[1..], v);
      FilterCons(s[0], rest, v);
      FilterCons(s[0], s[1..], v);
      assert [s[0]] + s[1..] == s;
      assert e0 == [] || ex == [];
      calc {
        Filter(Insert(x, s), v);
        e0 + Filter(rest, v);
        e0 + (ex + Filter(s[1..], v));
        ex + (e0 + Filter(s[1..], v));
        ex + Filter(s, v);
      }
    }
  }

  // ---------------------------------------------------------------------
  // The sort.

  /** The result is in descending order of score and is a permutation of
      the input. */
  lemma {:induction false} SortDescSorted<T>(s: seq<Scored<T>>)
    ensures NonIncreasing(SortDesc(s))
    ensures multiset(SortDesc(s)) == multiset(s)
    ensures |SortDesc(s)| == |s|
  {
    if s != [] {
      SortDescSorted(s[1..]);
      InsertSorted(s[0], SortDesc(s[1..]));
      InsertPerm(s[0], SortDesc(s[1..]));
      assert s == [s[0]] + s[1..];
      assert |multiset(SortDesc(s))| == |multiset(s)|;
    }
  }

  /** The sort is stable: the elements of any one score come out in the
      order they went in. */
  lemma {:induction false} SortDescStable<T>(s: seq<Scored<T>>, v: int)
    ensures Filter(SortDesc(s), v) == Filter(s, v)
  {
    if s != [] {
      SortDescStable(s[1..], v);
      InsertFilter(s[0], SortDesc(s[1..]), v);
    }
  }

  lemma FilterHead<T>(s: seq<Scored<T>>)
    requires s != []
    ensures Filter(s, s[0].score) == [s[0]] + Filter(s[1..], s[0].score)
  {
  }

  /** Two such arrangements start with the same element. */
  lemma SameHead<T>(a: seq<Scored<T>>, b: seq<Scored<T>>)
    requires a != [] && multiset(a) == multiset(b)
    requires NonIncreasing(a) && NonIncreasing(b)
    requires forall v :: Filter(a, v) == Filter(b, v)
    ensures b != [] && a[0] == b[0]
  {
    assert a[0] in multiset(b);
    var i :| 0 <= i < |b| && b[i] == a[0];
    assert b[0] in multiset(a);
    var j :| 0 <= j < |a| && a[j] == b[0];
    assert a[0].score >= a[j].score == b[0].score >= b[i].score == a[0].score;
    var m := a[0].score;
    FilterHead(a);
    FilterHead(b);
    assert Filter(a, m) == Filter(b, m);
    assert Filter(a, m)[0] == a[0] && Filter(b, m)[0] == b[0];
  }

  /** Dropping the same first element keeps them permutations of each
      other with the same elements per score. */
  lemma FilterTail<T>(a: seq<Scored<T>>, b: seq<Scored<T>>, v: int)
    requires a != [] && b != [] && a[0] == b[0]
    requires Filter(a, v) == Filter(b, v)
    ensures Filter(a[1..], v) == Filter(b[1..], v)
  {
    var head := if a[0].score == v then [a[0]] else [];
    assert Filter(a[1..], v) == Filter(a, v)[|head|..];
    assert Filter(b[1..], v) == Filter(b, v)[|head|..];
  }

  lemma MultisetTail<T>(a: seq<Scored<T>>)
    requires a != []
    ensures multiset(a[1..]) == multiset(a) - multiset{a[0]}
  {
    assert a == [a[0]] + a[1..];
  }

  lemma SameTails<T>(a: seq<Scored<T>>, b: seq<Scored<T>>)
    requires a != [] && b != [] && a[0] == b[0]
    requires multiset(a) == multiset(b)
    requires forall v :: Filter(a, v) == Filter(b, v)
    ensures multiset(a[1..]) == multiset(b[1..])
    ensures forall v :: Filter(a[1..], v) == Filter(b[1..], v)
  {
    MultisetTail(a);
    MultisetTail(b);
    forall v ensures Filter(a[1..], v) == Filter(b[1..], v) {
      FilterTail(a, b, v);
    }
  }

  /** Two permutations of each other, both in descending order and with
      the elements of each score in the same order, are equal. */
  lemma {:induction false} SortedUnique<T>(a: seq<Scored<T>>, b: seq<Scored<T>>)
    requires multiset(a) == multiset(b)
    requires NonIncreasing(a) && NonIncreasing(b)
    requires forall v :: Filter(a, v) == Filter(b, v)
    ensures a == b
  {
    assert |a| == |multiset(a)| == |multiset(b)| == |b|;
    if a != [] {
      SameHead(a, b);
      SameTails(a, b);
      SortedUnique(a[1..], b[1..]);
      assert a == [a[0]] + a[1..] && b == [b[0]] + b[1..];
    }
  }

  /** `SortDesc` is the one stable descending sort: any arrangement of
      `s` in descending order of score that keeps equal scores in their
      input order is `SortDesc(s)`. */
  lemma StableSortIsSortDesc<T>(s: seq<Scored<T>>, a: seq<Scored<T>>)
    requires multiset(a) == multiset(s)
    requires NonIncreasing(a)
    requires forall v :: Filter(a, v) == Filter(s, v)
    ensures a == SortDesc(s)
  {
    SortDescSorted(s);
    forall v ensures Filter(a, v) == Filter(SortDesc(s), v) {
      SortDescStable(s, v);
    }
    SortedUnique(a, SortDesc(s));
  }

  // ---------------------------------------------------------------------
  // Keeping the best.

  lemma {:induction false} FilterAppend<T>(s: seq<Scored<T>>, t: seq<Scored<T>>, v: int)
    ensures Filter(s + t, v) == Filter(s, v) + Filter(t, v)
  {
    if s != [] {
      FilterAppend(s[1..], t, v);
      var head := if s[0].score == v then [s[0]] else [];
      assert s + t != [] && (s + t)[0] == s[0];
      assert (s + t)[1..] == s[1..] + t;
      assert Filter(s + t, v) == head + Filter(s[1..] + t, v);
      assert Filter(s, v) == head + Filter(s[1..], v);
      assert head + (Filter(s[1..], v) + Filter(t, v)) == (head + Filter(s[1..], v)) + Filter(t, v);
    } else {
      assert s + t == t;
    }
  }

  /** `p` is an initial part of `q`. */
  predicate IsPrefix<T(==)>(p: seq<T>, q: seq<T>)
  {
    |p| <= |q| && p == q[..|p|]
  }

  /** `results[:k]` after the sort keeps `k` candidates, or all of them
      when there are fewer (for `k` of at least 0). */
  lemma TopKLength<T>(s: seq<Scored<T>>, k: int)
    ensures k >= 0 ==> |TopK(s, k)| == if k < |s| then k else |s|
    ensures k < 0 ==> |TopK(s, k)| == if |s| + k > 0 then |s| + k else 0
  {
    SortDescSorted(s);
  }

  /** The sorted candidates are the kept ones followed by the dropped
      ones. */
  lemma TopKSplit<T>(s: seq<Scored<T>>, k: int)
    ensures SortDesc(s) == TopK(s, k) + SortDesc(s)[|TopK(s, k)|..]
    ensures multiset(s) == multiset(TopK(s, k)) + multiset(SortDesc(s)[|TopK(s, k)|..])
  {
    var r := SortDesc(s);
    var t := TopK(s, k);
    SortDescSorted(s);
    assert r == t + r[|t|..];
  }

  /** The kept candidates are in descending order and are taken from the
      candidates. */
  lemma TopKSorted<T>(s: seq<Scored<T>>, k: int)
    ensures NonIncreasing(TopK(s, k))
    ensures multiset(TopK(s, k)) <= multiset(s)
  {
    var r := SortDesc(s);
    var t := TopK(s, k);
    SortDescSorted(s);
    TopKSplit(s, k);
    forall i, j | 0 <= i < j < |t| ensures t[i].score >= t[j].score {
      assert t[i] == r[i] && t[j] == r[j];
    }
  }

  /** The kept and the dropped candidates together are the candidates,
      and no kept candidate scores less than a dropped one. */
  lemma TopKDominates<T>(s: seq<Scored<T>>, k: int)
    ensures multiset(TopK(s, k)) + multiset(SortDesc(s)[|TopK(s, k)|..]) == multiset(s)
    ensures forall x, y | x in TopK(s, k) && y in SortDesc(s)[|TopK(s, k)|..] :: x.score >= y.score
  {
    var r := SortDesc(s);
    var t := TopK(s, k);
    var rest := r[|t|..];
    SortDescSorted(s);
    TopKSplit(s, k);
    forall x, y | x in t && y in rest ensures x.score >= y.score {
      var i :| 0 <= i < |t| && t[i] == x;
      var j :| 0 <= j < |rest| && rest[j] == y;
      assert r[i] == x && r[|t| + j] == y;
    }
  }

  /** Among the candidates of one score, the kept ones are the first
      produced. */
  lemma TopKStable<T>(s: seq<Scored<T>>, k: int, v: int)
    ensures IsPrefix(Filter(TopK(s, k), v), Filter(s, v))
  {
    var r := SortDesc(s);
    var t := TopK(s, k);
    assert r == t + r[|t|..];
    FilterAppend(t, r[|t|..], v);
    SortDescStable(s, v);
  }
}
