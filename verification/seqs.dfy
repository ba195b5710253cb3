/**
 Sequence helpers shared by the graph model: distinctness and the pigeonhole
 bound it gives, sums and counts, and the sort the degree statistics need.
 */
module Seqs {

  /** No value occurs twice in `s`. */
  predicate Distinct<T(==)>(s: seq<T>) {
    forall i, j :: 0 <= i < j < |s| ==> s[i] != s[j]
  }

  /** The naturals below `n`, as a set. */
  function Below(n: nat): (r: set<nat>)
    ensures forall x: nat :: x in r <==> x < n
    ensures |r| == n
  {
    if n == 0 then {} else Below(n - 1) + {n - 1}
  }

  /** Dropping a prefix keeps a sequence free of repetitions. */
  lemma DistinctDrop<T>(s: seq<T>, k: nat)
    requires Distinct(s) && k <= |s|
    ensures Distinct(s[k..])
  {
    forall i, j | 0 <= i < j < |s[k..]|
      ensures s[k..][i] != s[k..][j]
    {
      assert s[k..][i] == s[k + i] && s[k..][j] == s[k + j];
    }
  }

  /** A value of `a + b` with `b` non-empty is in `a`, is the head of `b`, or is further along `b`. */
  lemma InConcat<T>(a: seq<T>, b: seq<T>, x: T)
    requires x in a + b && |b| > 0
    ensures x in a || x == b[0] || exists i :: 1 <= i < |b| && b[i] == x
  {
    if x !in a {
      var k :| 0 <= k < |a + b| && (a + b)[k] == x;
      assert b[k - |a|] == x;
    }
  }

  /** Two repetition-free sequences with no value in common concatenate to a repetition-free one. */
  lemma DistinctConcat<T>(a: seq<T>, b: seq<T>)
    requires Distinct(a) && Distinct(b)
    requires forall x :: x in a ==> x !in b
    ensures Distinct(a + b)
  {
    forall i, j | 0 <= i < j < |a + b|
      ensures (a + b)[i] != (a + b)[j]
    {
      if i < |a| && j >= |a| {
        assert (a + b)[i] in a;
        assert (a + b)[j] == b[j - |a|];
      }
    }
  }

  /** The values occurring in `s`. */
  function Elements<T>(s: seq<T>): (r: set<T>)
    ensures forall i :: 0 <= i < |s| ==> s[i] in r
    ensures forall x :: x in r ==> x in s
  {
    set x | x in s
  }

  lemma {:induction false} DistinctElements<T>(s: seq<T>)
    requires Distinct(s)
    ensures |Elements(s)| == |s|
  {
    if s != [] {
      var t := s[..|s| - 1];
      var last := s[|s| - 1];
      assert Distinct(t);
      DistinctElements(t);
      assert Elements(s) == Elements(t) + {last} by {
        assert s == t + [last];
      }
      assert last !in Elements(t);
    }
  }

  /** A sequence has at least as many entries as distinct values, and exactly as many when it repeats none. */
  lemma {:induction false} ElementsSize<T>(s: seq<T>)
    ensures |Elements(s)| <= |s|
    ensures |Elements(s)| == |s| <==> Distinct(s)
  {
    if s != [] {
      var t := s[..|s| - 1];
      var last := s[|s| - 1];
      ElementsSize(t);
      assert s == t + [last];
      if last in t {
        assert Elements(s) == Elements(t);
        var k :| 0 <= k < |t| && t[k] == last;
        assert s[k] == s[|s| - 1];
      } else {
        assert Elements(s) == Elements(t) + {last};
        assert Distinct(s) <==> Distinct(t);
      }
    }
  }

  /** Extending a prefix by one entry adds exactly that entry. */
  lemma PrefixStep<T>(xs: seq<T>, k: nat)
    requires k < |xs|
    ensures forall x :: x in xs[..k + 1] <==> x in xs[..k] || x == xs[k]
  {
    assert xs[..k + 1] == xs[..k] + [xs[k]];
  }

  lemma SubsetSize<T>(a: set<T>, b: set<T>)
    requires a <= b
    ensures |a| <= |b|
  {
    assert b == a + (b - a);
  }

  /** Pigeonhole: a repetition-free sequence of naturals below `n` has at most `n` entries. */
  lemma DistinctLength(s: seq<int>, n: nat)
    requires Distinct(s)
    requires forall i :: 0 <= i < |s| ==> 0 <= s[i] < n
    ensures |s| <= n
  {
    DistinctElements(s);
    var e := set x: nat | x in s;
    assert e == Elements(s);
    assert e <= Below(n);
    SubsetSize(e, Below(n));
  }

  /** Sum of the entries. */
  function Sum(s: seq<int>): int {
    if s == [] then 0 else Sum(s[..|s| - 1]) + s[|s| - 1]
  }

  /** Changing one entry changes the sum by the difference. */
  lemma {:induction false} SumUpdate(s: seq<int>, i: nat, x: int)
    requires i < |s|
    ensures Sum(s[i := x]) == Sum(s) - s[i] + x
  {
    var k := |s| - 1;
    if i < k {
      assert s[i := x][..k] == s[..k][i := x];
      SumUpdate(s[..k], i, x);
    } else {
      assert s[i := x][..k] == s[..k];
    }
  }

  /** Raising two different entries by one each raises the sum by two. */
  lemma SumRaiseTwo(s: seq<int>, u: nat, v: nat)
    requires u < |s| && v < |s| && u != v
    ensures Sum(s[u := s[u] + 1][v := s[v] + 1]) == Sum(s) + 2
  {
    SumUpdate(s, u, s[u] + 1);
    SumUpdate(s[u := s[u] + 1], v, s[v] + 1);
  }

  lemma {:induction false} SumNonNegative(s: seq<int>)
    requires forall i :: 0 <= i < |s| ==> s[i] >= 0
    ensures Sum(s) >= 0
  {
    if s != [] {
      SumNonNegative(s[..|s| - 1]);
    }
  }

  /** Pointwise smaller entries have a smaller sum. */
  lemma {:induction false} SumMonotone(a: seq<int>, b: seq<int>)
    requires |a| == |b| && forall i :: 0 <= i < |a| ==> a[i] <= b[i]
    ensures Sum(a) <= Sum(b)
  {
    if a != [] {
      SumMonotone(a[..|a| - 1], b[..|b| - 1]);
    }
  }

  /** `s` with every entry whose flag is off replaced by 0. */
  function Masked(s: seq<int>, flags: seq<bool>): (r: seq<int>)
    requires |flags| == |s|
    ensures |r| == |s|
  {
    seq(|s|, i requires 0 <= i < |s| => if flags[i] then s[i] else 0)
  }

  /** Turning one flag on adds its entry to the masked sum. */
  lemma MaskedSet(s: seq<int>, flags: seq<bool>, i: nat)
    requires |flags| == |s| && i < |s| && !flags[i]
    ensures Sum(Masked(s, flags[i := true])) == Sum(Masked(s, flags)) + s[i]
  {
    assert Masked(s, flags[i := true]) == Masked(s, flags)[i := s[i]];
    SumUpdate(Masked(s, flags), i, s[i]);
  }

  /** With no negative entries the masked sum lies between 0 and the whole sum. */
  lemma MaskedBounds(s: seq<int>, flags: seq<bool>)
    requires |flags| == |s| && forall i :: 0 <= i < |s| ==> s[i] >= 0
    ensures 0 <= Sum(Masked(s, flags)) <= Sum(s)
  {
    SumMonotone(Masked(s, flags), s);
    SumNonNegative(Masked(s, flags));
  }

  /** Number of `true` entries. */
  function CountTrue(s: seq<bool>): (r: nat)
    ensures r <= |s|
  {
    if s == [] then 0 else CountTrue(s[..|s| - 1]) + (if s[|s| - 1] then 1 else 0)
  }

  /** The indices of the `true` entries. */
  function TrueSet(s: seq<bool>): (r: set<int>)
    ensures forall i :: i in r <==> 0 <= i < |s| && s[i]
  {
    set i | 0 <= i < |s| && s[i]
  }

  /** The count is the size of the index set. */
  lemma {:induction false} CountTrueIsSize(s: seq<bool>)
    ensures CountTrue(s) == |TrueSet(s)|
  {
    if s != [] {
      var k := |s| - 1;
      CountTrueIsSize(s[..k]);
      if s[k] {
        assert TrueSet(s) == TrueSet(s[..k]) + {k};
      } else {
        assert TrueSet(s) == TrueSet(s[..k]);
      }
    }
  }

  /** A repetition-free list of indices of `true` entries is no longer than the count. */
  lemma CountTrueAtLeast(s: seq<bool>, xs: seq<int>)
    requires Distinct(xs)
    requires forall i :: 0 <= i < |xs| ==> 0 <= xs[i] < |s| && s[xs[i]]
    ensures |xs| <= CountTrue(s)
  {
    DistinctElements(xs);
    CountTrueIsSize(s);
    SubsetSize(Elements(xs), TrueSet(s));
  }

  /** Setting an entry that was `false` adds one to the count. */
  lemma {:induction false} CountTrueSet(s: seq<bool>, i: nat)
    requires i < |s|
    ensures CountTrue(s[i := true]) == CountTrue(s) + (if s[i] then 0 else 1)
  {
    var k := |s| - 1;
    if i < k {
      assert s[i := true][..k] == s[..k][i := true];
      CountTrueSet(s[..k], i);
    } else {
      assert s[i := true][..k] == s[..k];
    }
  }

  /** Nondecreasing order. */
  predicate Sorted(s: seq<int>) {
    forall i, j :: 0 <= i <= j < |s| ==> s[i] <= s[j]
  }

  /** Inserts `x` into a sorted sequence, before the first larger entry. */
  function Insert(x: int, s: seq<int>): (r: seq<int>)
    requires Sorted(s)
    ensures |r| == |s| + 1
    ensures Sorted(r)
    ensures multiset(r) == multiset(s) + multiset{x}
  {
    if s == [] then [x]
    else if x <= s[0] then [x] + s
    else
      var t := Insert(x, s[1..]);
      InsertAfterHead(x, s, t);
      [s[0]] + t
  }

  lemma InsertAfterHead(x: int, s: seq<int>, t: seq<int>)
    requires Sorted(s) && s != [] && s[0] < x
    requires Sorted(t) && multiset(t) == multiset(s[1..]) + multiset{x}
    ensures Sorted([s[0]] + t)
    ensures multiset([s[0]] + t) == multiset(s) + multiset{x}
  {
    assert s == [s[0]] + s[1..];
    forall j | 0 <= j < |t|
      ensures s[0] <= t[j]
    {
      assert t[j] in multiset(t);
    }
  }

  /** Insertion sort: a sorted permutation of `s` (stands in for the C library sort). */
  function Sort(s: seq<int>): (r: seq<int>)
    ensures Sorted(r)
    ensures multiset(r) == multiset(s)
  {
    if s == [] then []
    else
      assert s == [s[0]] + s[1..];
      Insert(s[0], Sort(s[1..]))
  }

  /** Two sorted sequences with the same entries are the same sequence. */
  lemma {:induction false} SortedUnique(s: seq<int>, t: seq<int>)
    requires Sorted(s) && Sorted(t) && multiset(s) == multiset(t)
    ensures s == t
    decreases |s|
  {
    assert |s| == |multiset(s)| == |t|;
    if s != [] {
      assert s[0] == t[0] by {
        assert s[0] in multiset(t);
        var j :| 0 <= j < |t| && t[j] == s[0];
        assert t[0] in multiset(s);
        var i :| 0 <= i < |s| && s[i] == t[0];
        assert s[0] <= s[i] && t[0] <= t[j];
      }
      MultisetTail(s);
      MultisetTail(t);
      SortedTail(s);
      SortedTail(t);
      SortedUnique(s[1..], t[1..]);
    }
  }

  lemma MultisetTail(s: seq<int>)
    requires s != []
    ensures multiset(s[1..]) == multiset(s) - multiset{s[0]}
  {
    assert s == [s[0]] + s[1..];
  }

  lemma SortedTail(s: seq<int>)
    requires Sorted(s) && s != []
    ensures Sorted(s[1..])
  {
    forall i, j | 0 <= i <= j < |s| - 1
      ensures s[1..][i] <= s[1..][j]
    {
      assert s[1..][i] == s[i + 1] && s[1..][j] == s[j + 1];
    }
  }

  /** `x` lies on the chosen side of `r`: at most `r`, or at least `r`. */
  predicate OnSide(x: int, r: int, atMost: bool) {
    if atMost then x <= r else x >= r
  }

  /** How many entries of `s` lie on the chosen side of `r`. */
  function CountSide(s: seq<int>, r: int, atMost: bool): (c: nat)
    ensures c <= |s|
  {
    if s == [] then 0
    else CountSide(s[..|s| - 1], r, atMost) + (if OnSide(s[|s| - 1], r, atMost) then 1 else 0)
  }

  lemma {:induction false} CountSideConcat(a: seq<int>, b: seq<int>, r: int, atMost: bool)
    ensures CountSide(a + b, r, atMost) == CountSide(a, r, atMost) + CountSide(b, r, atMost)
    decreases |b|
  {
    if b == [] {
      assert a + b == a;
    } else {
      var k := |b| - 1;
      assert (a + b)[..|a + b| - 1] == a + b[..k];
      CountSideConcat(a, b[..k], r, atMost);
    }
  }

  /** Taking out entry `j` takes out its share of the count. */
  lemma CountSideRemove(s: seq<int>, j: nat, r: int, atMost: bool)
    requires j < |s|
    ensures CountSide(s, r, atMost) ==
      CountSide(s[..j] + s[j + 1..], r, atMost) + (if OnSide(s[j], r, atMost) then 1 else 0)
  {
    assert s == s[..j] + ([s[j]] + s[j + 1..]);
    CountSideConcat(s[..j], [s[j]] + s[j + 1..], r, atMost);
    CountSideConcat([s[j]], s[j + 1..], r, atMost);
    CountSideConcat(s[..j], s[j + 1..], r, atMost);
    assert CountSide([s[j]], r, atMost) == (if OnSide(s[j], r, atMost) then 1 else 0) by {
      assert [s[j]][..0] == [];
    }
  }

  /** The count depends only on the multiset of entries. */
  lemma {:induction false} CountSidePermutation(a: seq<int>, b: seq<int>, r: int, atMost: bool)
    requires multiset(a) == multiset(b)
    ensures CountSide(a, r, atMost) == CountSide(b, r, atMost)
    decreases |a|
  {
    if a != [] {
      var k := |a| - 1;
      var x := a[k];
      assert a == a[..k] + [x];
      assert x in multiset(b);
      var j :| 0 <= j < |b| && b[j] == x;
      var b1 := b[..j] + b[j + 1..];
      assert b == b[..j] + [x] + b[j + 1..];
      assert multiset(b1) == multiset(b) - multiset{x};
      assert multiset(a[..k]) == multiset(a) - multiset{x};
      CountSidePermutation(a[..k], b1, r, atMost);
      CountSideRemove(b, j, r, atMost);
    }
  }

  /** Entries `0..m` of `s` are at most `r`, so at least `m` entries are. */
  lemma {:induction false} CountAtMostPrefix(s: seq<int>, m: nat, r: int)
    requires m <= |s| && forall i :: 0 <= i < m ==> s[i] <= r
    ensures CountSide(s, r, true) >= m
    decreases |s|
  {
    if s != [] {
      var k := |s| - 1;
      if m <= k {
        CountAtMostPrefix(s[..k], m, r);
      } else {
        CountAtMostPrefix(s[..k], k, r);
      }
    }
  }

  /** Entries `m..` of `s` are at least `r`, so at least `|s| - m` entries are. */
  lemma {:induction false} CountAtLeastSuffix(s: seq<int>, m: nat, r: int)
    requires m <= |s| && forall i :: m <= i < |s| ==> s[i] >= r
    ensures CountSide(s, r, false) >= |s| - m
    decreases |s|
  {
    if |s| > m {
      var k := |s| - 1;
      CountAtLeastSuffix(s[..k], m, r);
    }
  }
}
