/** Small shared vocabulary: optional values and weighted sums over multisets. */
module Common {

  datatype Option<+T> = None | Some(value: T)

  datatype Result<+T, +E> = Ok(value: T) | Err(error: E)

  /** The sum of the weights of the elements of a multiset, counted with multiplicity. */
  ghost function Total<T(!new)>(m: multiset<T>, w: T -> nat): nat
    decreases |m|
  {
    if m == multiset{} then 0
    else
      var x :| x in m;
      w(x) + Total(m - multiset{x}, w)
  }

  /** Any element may be taken out first. */
  lemma {:induction false} TotalTakeOut<T(!new)>(m: multiset<T>, w: T -> nat, x: T)
    requires x in m
    ensures Total(m, w) == w(x) + Total(m - multiset{x}, w)
    decreases |m|
  {
    var y :| y in m && Total(m, w) == w(y) + Total(m - multiset{y}, w);
    if y != x {
      TakeTwo(m, x, y);
      TotalTakeOut(m - multiset{y}, w, x);
      TotalTakeOut(m - multiset{x}, w, y);
    }
  }

  lemma TakeTwo<T>(m: multiset<T>, x: T, y: T)
    requires x in m && y in m && x != y
    ensures x in m - multiset{y} && y in m - multiset{x}
    ensures m - multiset{y} - multiset{x} == m - multiset{x} - multiset{y}
  {
  }

  lemma TotalOne<T(!new)>(x: T, w: T -> nat)
    ensures Total(multiset{x}, w) == w(x)
  {
    TotalTakeOut(multiset{x}, w, x);
    assert multiset{x} - multiset{x} == multiset{};
  }

  lemma TotalTwo<T(!new)>(x: T, y: T, w: T -> nat)
    ensures Total(multiset{x, y}, w) == w(x) + w(y)
  {
    TotalTakeOut(multiset{x, y}, w, x);
    assert multiset{x, y} - multiset{x} == multiset{y};
    TotalOne(y, w);
  }

  lemma {:induction false} TotalUnion<T(!new)>(m: multiset<T>, n: multiset<T>, w: T -> nat)
    ensures Total(m + n, w) == Total(m, w) + Total(n, w)
    decreases |n|
  {
    if n == multiset{} {
      assert m + n == m;
    } else {
      var x :| x in n;
      TotalUnion(m, n - multiset{x}, w);
      TotalTakeOut(n, w, x);
      TotalTakeOut(m + n, w, x);
      assert m + n - multiset{x} == m + (n - multiset{x});
    }
  }

  lemma {:induction false} TotalAtMostOnes<T(!new)>(m: multiset<T>, w: T -> nat)
    requires forall x :: w(x) <= 1
    ensures Total(m, w) <= |m|
    decreases |m|
  {
    if m != multiset{} {
      var x :| x in m && Total(m, w) == w(x) + Total(m - multiset{x}, w);
      TotalAtMostOnes(m - multiset{x}, w);
    }
  }

  lemma {:induction false} TotalAtMostTwos<T(!new)>(m: multiset<T>, w: T -> nat)
    requires forall x :: w(x) <= 2
    ensures Total(m, w) <= 2 * |m|
    decreases |m|
  {
    if m != multiset{} {
      var x :| x in m && Total(m, w) == w(x) + Total(m - multiset{x}, w);
      TotalAtMostTwos(m - multiset{x}, w);
    }
  }

  /** An element that is new repeats none, so repetitions are those there were. */
  lemma NewLast<T>(p: seq<T>, x: T)
    requires x !in p
    ensures var q := p + [x];
      (forall i, j :: 0 <= i < j < |q| ==> q[i] != q[j]) <==> (forall i, j :: 0 <= i < j < |p| ==> p[i] != p[j])
  {
    var q := p + [x];
    assert forall i :: 0 <= i < |p| ==> q[i] == p[i] && p[i] in p;
  }

  /** A sequence has at most as many distinct elements as positions, and exactly
      as many only when no element repeats. */
  lemma {:induction false} DistinctCount<T>(q: seq<T>)
    ensures |set x | x in q| <= |q|
    ensures |set x | x in q| == |q| <==> (forall i, j :: 0 <= i < j < |q| ==> q[i] != q[j])
  {
    if q == [] {
    } else {
      var n := |q| - 1;
      var p := q[..n];
      DistinctCount(p);
      var a := set x | x in q;
      var b := set x | x in p;
      assert q == p + [q[n]];
      assert a == b + {q[n]};
      if q[n] in p {
        assert a == b;
        var k :| 0 <= k < n && p[k] == q[n];
        assert q[k] == q[n];
      } else {
        assert |a| == |b| + 1;
        NewLast(p, q[n]);
      }
    }
  }

  lemma SubsetCount<T>(a: set<T>, b: set<T>)
    requires a <= b
    ensures |a| <= |b| && (|a| == |b| <==> a == b)
  {
    assert b == a + (b - a);
  }
}
