/** Python's ordering of `str` values and the `sorted` built-in on a list of
    strings. Strings compare code point by code point; a proper prefix comes
    first. */
module StrOrder {

  /** Python's `a <= b` on two strings. */
  predicate LessEq(a: string, b: string)
  {
    |a| == 0 || (|b| > 0 && (a[0] < b[0] || (a[0] == b[0] && LessEq(a[1..], b[1..]))))
  }

  /** Python's `a < b` on two strings. */
  predicate Less(a: string, b: string)
  {
    LessEq(a, b) && a != b
  }

  lemma {:induction false} LessEqReflexive(a: string)
    ensures LessEq(a, a)
  {
    if |a| > 0 {
      LessEqReflexive(a[1..]);
    }
  }

  lemma {:induction false} LessEqAntisymmetric(a: string, b: string)
    requires LessEq(a, b) && LessEq(b, a)
    ensures a == b
  {
    if |a| > 0 && |b| > 0 {
      LessEqAntisymmetric(a[1..], b[1..]);
      assert a == [a[0]] + a[1..] && b == [b[0]] + b[1..];
    }
  }

  lemma {:induction false} LessEqTransitive(a: string, b: string, c: string)
    requires LessEq(a, b) && LessEq(b, c)
    ensures LessEq(a, c)
  {
    if |a| > 0 && |b| > 0 && |c| > 0 && a[0] == b[0] == c[0] {
      LessEqTransitive(a[1..], b[1..], c[1..]);
    }
  }

  lemma {:induction false} LessEqTotal(a: string, b: string)
    ensures LessEq(a, b) || LessEq(b, a)
  {
    if |a| > 0 && |b| > 0 && a[0] == b[0] {
      LessEqTotal(a[1..], b[1..]);
    }
  }

  /** Every element is `<=` every later one: what `sorted` promises. */
  ghost predicate Sorted(s: seq<string>)
  {
    forall i, j :: 0 <= i < j < |s| ==> LessEq(s[i], s[j])
  }

  /** Every element is `<` every later one. */
  ghost predicate StrictlyAscending(s: seq<string>)
  {
    forall i, j :: 0 <= i < j < |s| ==> Less(s[i], s[j])
  }

  /** No string occurs twice. */
  ghost predicate Distinct(s: seq<string>)
  {
    forall i, j :: 0 <= i < j < |s| ==> s[i] != s[j]
  }

  /** Places `x` into the sorted list `s` before the first element it is
      `<=` to. */
  function Insert(x: string, s: seq<string>): (r: seq<string>)
    requires Sorted(s)
    ensures Sorted(r)
    ensures multiset(r) == multiset(s) + multiset{x}
    decreases |s|
  {
    if s == [] then [x]
    else if LessEq(x, s[0]) then
      InsertFrontSorted(x, s);
      [x] + s
    else
      var t := Insert(x, s[1..]);
      assert s == [s[0]] + s[1..];
      LessEqTotal(x, s[0]);
      InsertRestSorted(x, s, t);
      [s[0]] + t
  }

  lemma InsertFrontSorted(x: string, s: seq<string>)
    requires Sorted(s) && s != [] && LessEq(x, s[0])
    ensures Sorted([x] + s)
  {
    forall j | 0 < j < |s| ensures LessEq(x, s[j]) {
      LessEqTransitive(x, s[0], s[j]);
    }
  }

  lemma InsertRestSorted(x: string, s: seq<string>, t: seq<string>)
    requires Sorted(s) && s != [] && LessEq(s[0], x)
    requires Sorted(t) && multiset(t) == multiset(s[1..]) + multiset{x}
    ensures Sorted([s[0]] + t)
  {
    forall j | 0 <= j < |t| ensures LessEq(s[0], t[j]) {
      assert t[j] in multiset(t);
      if t[j] != x {
        assert t[j] in s[1..];
        var k :| 0 <= k < |s[1..]| && s[1..][k] == t[j];
        assert s[k + 1] == t[j];
      }
    }
  }

  /** Python's `sorted` on a list of strings (modelled as insertion sort; any
      correct sort gives the same list, see SortedUnique). */
  function Sort(s: seq<string>): (r: seq<string>)
    ensures Sorted(r)
    ensures multiset(r) == multiset(s)
  {
    if s == [] then []
    else
      assert s == [s[0]] + s[1..];
      Insert(s[0], Sort(s[1..]))
  }

  /** There is only one sorted arrangement of a multiset of strings, so the
      result of `sorted` does not depend on the order of its input. */
  lemma {:induction false} SortedUnique(a: seq<string>, b: seq<string>)
    requires Sorted(a) && Sorted(b) && multiset(a) == multiset(b)
    ensures a == b
  {
    if a == [] {
      assert |multiset(b)| == 0;
    } else {
      assert a[0] in multiset(a);
      assert b != [];
      assert b[0] in multiset(b);
      LeastOfSorted(b, a[0]);
      LeastOfSorted(a, b[0]);
      LessEqAntisymmetric(a[0], b[0]);
      assert a == [a[0]] + a[1..] && b == [b[0]] + b[1..];
      assert multiset(a[1..]) == multiset(a) - multiset{a[0]};
      assert multiset(b[1..]) == multiset(b) - multiset{b[0]};
      SortedUnique(a[1..], b[1..]);
    }
  }

  lemma LeastOfSorted(s: seq<string>, x: string)
    requires Sorted(s) && x in s
    ensures LessEq(s[0], x)
  {
    var k :| 0 <= k < |s| && s[k] == x;
    if k == 0 {
      LessEqReflexive(x);
    }
  }

  lemma SortIsOrderIndependent(a: seq<string>, b: seq<string>)
    requires multiset(a) == multiset(b)
    ensures Sort(a) == Sort(b)
  {
    SortedUnique(Sort(a), Sort(b));
  }

  /** A string occurs at most once in a list without repetitions. */
  lemma {:induction false} DistinctCount(s: seq<string>, x: string)
    requires Distinct(s)
    ensures multiset(s)[x] <= 1
  {
    if s != [] {
      var n := |s| - 1;
      assert s == s[..n] + [s[n]];
      DistinctCount(s[..n], x);
      if s[n] == x {
        assert x !in s[..n];
      }
    }
  }

  /** Two occurrences of the same string show in its multiplicity. */
  lemma RepeatCount(s: seq<string>, i: int, j: int)
    requires 0 <= i < j < |s| && s[i] == s[j]
    ensures multiset(s)[s[i]] >= 2
  {
    assert s == s[..j] + s[j..];
    assert s[i] in s[..j];
    assert s[j..][0] == s[j];
  }

  /** Rearranging a list without repetitions leaves it without repetitions. */
  lemma DistinctPermutation(a: seq<string>, b: seq<string>)
    requires Distinct(a) && multiset(a) == multiset(b)
    ensures Distinct(b)
  {
    forall i, j | 0 <= i < j < |b| ensures b[i] != b[j] {
      if b[i] == b[j] {
        RepeatCount(b, i, j);
        DistinctCount(a, b[i]);
      }
    }
  }

  /** A sorted list without repetitions is strictly ascending. */
  lemma SortedDistinctAscending(s: seq<string>)
    requires Sorted(s) && Distinct(s)
    ensures StrictlyAscending(s)
  {
  }
}
