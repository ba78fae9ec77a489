/** Sequences used as ordered dictionaries, logs and lists: filtering and the facts about it. */
module Sequences {

  datatype Option<+T> = None | Some(value: T)

  datatype Result<+T, +E> = Success(value: T) | Failure(error: E)

  /** The elements of `s` that satisfy `keep`, in their order (a list comprehension with a condition). */
  function Filter<T(!new)>(s: seq<T>, keep: T -> bool): (r: seq<T>)
    ensures |r| <= |s|
    ensures forall x :: x in r <==> x in s && keep(x)
  {
    if s == [] then []
    else
      var r := Filter(s[..|s| - 1], keep);
      var x := s[|s| - 1];
      assert s == s[..|s| - 1] + [x];
      if keep(x) then r + [x] else r
  }

  lemma FilterConcat<T(!new)>(a: seq<T>, b: seq<T>, keep: T -> bool)
    ensures Filter(a + b, keep) == Filter(a, keep) + Filter(b, keep)
  {
    if b == [] {
      assert a + b == a;
    } else {
      assert (a + b)[..|a + b| - 1] == a + b[..|b| - 1];
      FilterConcat(a, b[..|b| - 1], keep);
    }
  }

  lemma FilterOne<T(!new)>(x: T, keep: T -> bool)
    ensures Filter([x], keep) == if keep(x) then [x] else []
  {
    assert [x][..0] == [];
    assert Filter([x][..0], keep) == [];
  }

  lemma FilterExtend<T(!new)>(a: seq<T>, x: T, keep: T -> bool)
    ensures Filter(a + [x], keep) == Filter(a, keep) + if keep(x) then [x] else []
  {
    FilterConcat(a, [x], keep);
    FilterOne(x, keep);
  }

  lemma FilterFirst<T(!new)>(s: seq<T>, keep: T -> bool)
    requires s != []
    ensures Filter(s, keep) == (if keep(s[0]) then [s[0]] else []) + Filter(s[1..], keep)
    ensures |Filter(s, keep)| == (if keep(s[0]) then 1 else 0) + |Filter(s[1..], keep)|
    ensures forall x :: x in s <==> x == s[0] || x in s[1..]
  {
    assert s == [s[0]] + s[1..];
    FilterConcat([s[0]], s[1..], keep);
    FilterOne(s[0], keep);
  }

  /** Filtering one element more. */
  lemma FilterNext<T(!new)>(s: seq<T>, i: nat, keep: T -> bool)
    requires i < |s|
    ensures Filter(s[..i + 1], keep) == Filter(s[..i], keep) + if keep(s[i]) then [s[i]] else []
  {
    assert s[..i + 1] == s[..i] + [s[i]];
    FilterExtend(s[..i], s[i], keep);
  }

  lemma WholeSlice<T>(s: seq<T>)
    ensures s[..|s|] == s
  {
  }

  /** Two conditions that agree on the elements select the same sequence. */
  lemma FilterAgree<T(!new)>(s: seq<T>, p: T -> bool, q: T -> bool)
    requires forall x :: x in s ==> p(x) == q(x)
    ensures Filter(s, p) == Filter(s, q)
  {
    if s == [] {
    } else {
      assert s[|s| - 1] in s;
      FilterAgree(s[..|s| - 1], p, q);
    }
  }

  lemma FilterAll<T(!new)>(s: seq<T>, p: T -> bool)
    requires forall x :: x in s ==> p(x)
    ensures Filter(s, p) == s
  {
    if s == [] {
    } else {
      assert s[|s| - 1] in s;
      FilterAll(s[..|s| - 1], p);
      assert s == s[..|s| - 1] + [s[|s| - 1]];
    }
  }

  lemma FilterNone<T(!new)>(s: seq<T>, p: T -> bool)
    requires forall x :: x in s ==> !p(x)
    ensures Filter(s, p) == []
  {
    if Filter(s, p) != [] {
      assert Filter(s, p)[0] in Filter(s, p);
    }
  }

  /** Filtering twice is filtering by the conjunction. */
  lemma FilterTwice<T(!new)>(s: seq<T>, p: T -> bool, q: T -> bool, both: T -> bool)
    requires forall x :: x in s ==> both(x) == (p(x) && q(x))
    ensures Filter(Filter(s, p), q) == Filter(s, both)
  {
    if s == [] {
    } else {
      var x := s[|s| - 1];
      assert x in s;
      FilterTwice(s[..|s| - 1], p, q, both);
      if p(x) {
        FilterExtend(Filter(s[..|s| - 1], p), x, q);
      }
    }
  }

  /** A weaker condition keeps at least as many elements. */
  lemma FilterMonotone<T(!new)>(s: seq<T>, p: T -> bool, q: T -> bool)
    requires forall x :: x in s && p(x) ==> q(x)
    ensures |Filter(s, p)| <= |Filter(s, q)|
  {
    if s == [] {
    } else {
      assert s[|s| - 1] in s;
      FilterMonotone(s[..|s| - 1], p, q);
    }
  }

  /** A condition and its negation split the sequence. */
  lemma FilterSplit<T(!new)>(s: seq<T>, p: T -> bool, notP: T -> bool)
    requires forall x :: x in s ==> notP(x) == !p(x)
    ensures |Filter(s, p)| + |Filter(s, notP)| == |s|
  {
    if s == [] {
    } else {
      assert s[|s| - 1] in s;
      FilterSplit(s[..|s| - 1], p, notP);
    }
  }

  lemma LastOfConcat<T>(a: seq<T>, b: seq<T>)
    requires b != []
    ensures a + b != [] && (a + b)[|a + b| - 1] == b[|b| - 1]
  {
  }

  lemma NothingBefore<T>(s: seq<T>)
    ensures [] + s == s
  {
  }

  lemma ConcatAssociates<T>(a: seq<T>, b: seq<T>, c: seq<T>)
    ensures (a + b) + c == a + (b + c)
  {
  }

  /** A filter that keeps the length keeps the sequence. */
  lemma FilterOfFullLength<T(!new)>(s: seq<T>, keep: T -> bool)
    requires |Filter(s, keep)| == |s|
    ensures Filter(s, keep) == s
  {
    if s == [] {
    } else {
      FilterOfFullLength(s[..|s| - 1], keep);
      assert s == s[..|s| - 1] + [s[|s| - 1]];
    }
  }

  /** A condition that holds from position `k` on, and nowhere before, selects the tail. */
  lemma FilterTail<T(!new)>(s: seq<T>, keep: T -> bool, k: nat)
    requires k <= |s| && forall i :: 0 <= i < |s| ==> keep(s[i]) == (i >= k)
    ensures Filter(s, keep) == s[k..]
  {
    assert s == s[..k] + s[k..];
    FilterConcat(s[..k], s[k..], keep);
    FilterNone(s[..k], keep);
    FilterAll(s[k..], keep);
  }

  lemma HeadOrTail<T>(s: seq<T>)
    requires s != []
    ensures s[0] in s && forall x :: x in s <==> x == s[0] || x in s[1..]
  {
    assert s == [s[0]] + s[1..];
  }

  lemma DropOneMore<T>(s: seq<T>, i: nat)
    requires i < |s|
    ensures s[i..][1..] == s[i + 1..] && |s[i..]| == |s| - i
  {
  }

  lemma Tails<T>(s: seq<T>)
    ensures s[0..] == s && s[|s|..] == []
  {
  }

  lemma SplitAtIndex<T>(s: seq<T>, i: nat)
    requires i < |s|
    ensures s == s[..i] + [s[i]] + s[i + 1..]
  {
  }

  lemma AtSeam<T>(a: seq<T>, x: T, b: seq<T>)
    ensures (a + [x] + b)[|a|] == x && (a + [x] + b)[|a| + 1..] == b && |a + [x] + b| == |a| + 1 + |b|
  {
  }

  lemma DropBefore<T>(s: seq<T>, d: nat, i: nat)
    requires d <= i < |s|
    ensures s[d..][i - d] == s[i] && s[d..][i - d + 1..] == s[i + 1..] && |s[d..]| == |s| - d
  {
  }

  lemma SliceOfTail<T>(s: seq<T>, i: nat, n: nat)
    requires i + n <= |s|
    ensures s[i..][..n] == s[i..i + n] && s[i..][n..] == s[i + n..]
  {
  }

  lemma MultisetOfLast<T>(s: seq<T>)
    requires s != []
    ensures multiset(s) == multiset(s[..|s| - 1]) + multiset{s[|s| - 1]}
  {
    assert s == s[..|s| - 1] + [s[|s| - 1]];
  }

  predicate NoDuplicates<T(==)>(s: seq<T>)
  {
    forall i, j :: 0 <= i < j < |s| ==> s[i] != s[j]
  }

  function SetOf<T(==,!new)>(s: seq<T>): (r: set<T>)
    ensures forall x :: x in r <==> x in s
  {
    set x | x in s
  }

  lemma NoDuplicatesSize<T(!new)>(s: seq<T>)
    requires NoDuplicates(s)
    ensures |SetOf(s)| == |s|
  {
    if s == [] {
      assert SetOf(s) == {};
    } else {
      var front, x := s[..|s| - 1], s[|s| - 1];
      NoDuplicatesSize(front);
      assert SetOf(s) == SetOf(front) + {x};
      assert x !in front;
    }
  }

  lemma Member<T>(s: set<T>) returns (x: T)
    requires s != {}
    ensures x in s
  {
    x :| x in s;
  }

  lemma SubsetSize<T>(a: set<T>, b: set<T>)
    requires a <= b
    ensures |a| <= |b|
    ensures |a| == |b| ==> a == b
  {
    assert b == a + (b - a);
  }
}
