/** The stable descending sort the history view obtains from
    `Array.prototype.sort` with a comparator `(a, b) => key(b) - key(a)`:
    larger keys first, ties kept in their input order. */
module StableSort {

  /** Larger keys first. */
  ghost predicate Descending<T>(xs: seq<T>, key: T -> real) {
    forall i, j :: 0 <= i < j < |xs| ==> key(xs[j]) <= key(xs[i])
  }

  /** Puts `x`, which came before every element of `ys` in the input, in front
      of the first element whose key is not larger than its own. */
  function Insert<T>(x: T, ys: seq<T>, key: T -> real): (r: seq<T>)
    ensures |r| == |ys| + 1
    ensures multiset(r) == multiset(ys) + multiset{x}
  {
    if ys == [] || key(ys[0]) <= key(x) then [x] + ys
    else
      assert ys == [ys[0]] + ys[1..];
      [ys[0]] + Insert(x, ys[1..], key)
  }

  /** The sorted copy of `xs`. */
  function SortDescending<T>(xs: seq<T>, key: T -> real): (r: seq<T>)
    ensures |r| == |xs|
    ensures multiset(r) == multiset(xs)
  {
    if xs == [] then []
    else
      assert xs == [xs[0]] + xs[1..];
      Insert(xs[0], SortDescending(xs[1..], key), key)
  }

  lemma {:induction false} InsertDescending<T>(x: T, ys: seq<T>, key: T -> real)
    requires Descending(ys, key)
    ensures Descending(Insert(x, ys, key), key)
  {
    if ys == [] || key(ys[0]) <= key(x) {
    } else {
      var tail := Insert(x, ys[1..], key);
      InsertDescending(x, ys[1..], key);
      assert multiset(tail) == multiset(ys[1..]) + multiset{x};
      forall k | 0 <= k < |tail| ensures key(tail[k]) <= key(ys[0]) {
        assert tail[k] in multiset(tail);
        if tail[k] == x {
        } else {
          assert tail[k] in multiset(ys[1..]);
          var m :| 0 <= m < |ys[1..]| && ys[1..][m] == tail[k];
          assert ys[m + 1] == tail[k];
        }
      }
    }
  }

  /** The sorted copy is ordered by descending key and holds exactly the
      input's elements. */
  lemma {:induction false} SortDescendingFacts<T>(xs: seq<T>, key: T -> real)
    ensures Descending(SortDescending(xs, key), key)
    ensures multiset(SortDescending(xs, key)) == multiset(xs)
  {
    if xs != [] {
      SortDescendingFacts(xs[1..], key);
      InsertDescending(xs[0], SortDescending(xs[1..], key), key);
    }
  }

  /** An element of a descending sequence has a key no larger than the
      first element's. */
  lemma HeadIsLargest<T>(s: seq<T>, key: T -> real, x: T)
    requires Descending(s, key)
    requires x in s
    ensures key(x) <= key(s[0])
  {
    var m :| 0 <= m < |s| && s[m] == x;
  }

  lemma HeadSplit<T>(s: seq<T>)
    requires |s| >= 1
    ensures multiset(s) == multiset{s[0]} + multiset(s[1..])
  {
    assert s == [s[0]] + s[1..];
  }

  lemma DescendingTail<T>(s: seq<T>, key: T -> real)
    requires |s| >= 1 && Descending(s, key)
    ensures Descending(s[1..], key)
  {
    forall i, j | 0 <= i < j < |s[1..]| ensures key(s[1..][j]) <= key(s[1..][i]) {
      assert s[1..][j] == s[j + 1] && s[1..][i] == s[i + 1];
    }
  }

  /** The first element of the sorted copy is an input element with the
      largest key. */
  lemma SortedHeadIsLargest<T>(xs: seq<T>, key: T -> real)
    requires |xs| >= 1
    ensures var s := SortDescending(xs, key);
            && s[0] in xs
            && (forall x :: x in xs ==> key(x) <= key(s[0]))
  {
    var s := SortDescending(xs, key);
    SortDescendingFacts(xs, key);
    assert s[0] in multiset(s);
    forall x | x in xs ensures key(x) <= key(s[0]) {
      assert x in multiset(s);
      HeadIsLargest(s, key, x);
    }
  }

  /** The second element of the sorted copy has the largest key once the
      first is taken out. */
  lemma SortedSecondIsLargestOfRest<T>(xs: seq<T>, key: T -> real)
    requires |xs| >= 2
    ensures var s := SortDescending(xs, key);
            && multiset{s[0], s[1]} <= multiset(xs)
            && (forall x :: x in multiset(xs) - multiset{s[0]} ==> key(x) <= key(s[1]))
  {
    var s := SortDescending(xs, key);
    SortDescendingFacts(xs, key);
    HeadSplit(s);
    HeadSplit(s[1..]);
    DescendingTail(s, key);
    forall x | x in multiset(xs) - multiset{s[0]} ensures key(x) <= key(s[1]) {
      assert x in multiset(s[1..]);
      HeadIsLargest(s[1..], key, x);
    }
  }
}
