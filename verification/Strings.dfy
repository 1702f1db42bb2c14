/**
 Go string facts shared by several components: the byte-wise order used by
 `sort.Strings` and `<`, decimal printing as done by `%d`, suffix tests, and
 sorting taken by its specification (a sorted permutation).
 */
module Strings {

  /** Go's `a <= b` on strings: lexicographic order by character code. */
  predicate Leq(a: string, b: string) {
    a == [] || (b != [] && (a[0] < b[0] || (a[0] == b[0] && Leq(a[1..], b[1..]))))
  }

  lemma {:induction false} LeqReflexive(a: string)
    ensures Leq(a, a)
  {
    if a != [] {
      LeqReflexive(a[1..]);
    }
  }

  lemma {:induction false} LeqTransitive(a: string, b: string, c: string)
    requires Leq(a, b) && Leq(b, c)
    ensures Leq(a, c)
  {
    if a != [] && a[0] == b[0] && b[0] == c[0] {
      LeqTransitive(a[1..], b[1..], c[1..]);
    }
  }

  lemma {:induction false} LeqAntisymmetric(a: string, b: string)
    requires Leq(a, b) && Leq(b, a)
    ensures a == b
  {
    if a != [] {
      LeqAntisymmetric(a[1..], b[1..]);
      assert a == [a[0]] + a[1..] && b == [b[0]] + b[1..];
    }
  }

  lemma {:induction false} LeqTotal(a: string, b: string)
    ensures Leq(a, b) || Leq(b, a)
  {
    if a != [] && b != [] && a[0] == b[0] {
      LeqTotal(a[1..], b[1..]);
    }
  }

  lemma {:induction false} LeqCommonPrefix(p: string, a: string, b: string)
    ensures Leq(p + a, p + b) <==> Leq(a, b)
  {
    if p == [] {
      assert p + a == a && p + b == b;
    } else {
      LeqCommonPrefix(p[1..], a, b);
      assert (p + a)[1..] == p[1..] + a && (p + b)[1..] == p[1..] + b;
    }
  }

  /** Every entry is at most every later one. */
  predicate Sorted(s: seq<string>) {
    forall i, j :: 0 <= i < j < |s| ==> Leq(s[i], s[j])
  }

  predicate NoDup<T(==)>(s: seq<T>) {
    forall i, j :: 0 <= i < j < |s| ==> s[i] != s[j]
  }

  lemma AppendNoDup<T>(s: seq<T>, x: T)
    requires NoDup(s) && x !in s
    ensures NoDup(s + [x])
  {
  }

  ghost function ToSet<T>(s: seq<T>): set<T> {
    set x | x in s
  }

  /** What `sort.Strings` promises: its result is a sorted permutation. */
  predicate SortedPermutation(s: seq<string>, t: seq<string>) {
    multiset(s) == multiset(t) && Sorted(t)
  }

  /** A list that names every member of a set once, in increasing order. */
  ghost predicate Enumerates(t: seq<string>, keys: set<string>) {
    Sorted(t) && NoDup(t) && ToSet(t) == keys
  }

  /** There is only one increasing enumeration of a set of strings. */
  lemma {:induction false} EnumerationUnique(t: seq<string>, u: seq<string>, keys: set<string>)
    requires Enumerates(t, keys) && Enumerates(u, keys)
    ensures t == u
    decreases |t|
  {
    if t == [] {
      assert forall i :: 0 <= i < |u| ==> u[i] in ToSet(u);
    } else {
      assert t[0] in ToSet(t);
      assert t[0] in ToSet(u);
      assert u[0] in ToSet(u);
      assert u[0] in ToSet(t);
      FirstIsLeast(t, u[0]);
      FirstIsLeast(u, t[0]);
      LeqAntisymmetric(t[0], u[0]);
      EnumerationTail(t, keys);
      EnumerationTail(u, keys);
      EnumerationUnique(t[1..], u[1..], keys - {t[0]});
      assert t == [t[0]] + t[1..] && u == [u[0]] + u[1..];
    }
  }

  lemma FirstIsLeast(t: seq<string>, x: string)
    requires Sorted(t) && x in t
    ensures Leq(t[0], x)
  {
    var i :| 0 <= i < |t| && t[i] == x;
    if i == 0 {
      LeqReflexive(x);
    }
  }

  lemma EnumerationTail(t: seq<string>, keys: set<string>)
    requires Enumerates(t, keys) && t != []
    ensures Enumerates(t[1..], keys - {t[0]})
  {
    assert ToSet(t[1..]) == keys - {t[0]} by {
      forall x ensures x in t[1..] <==> x in keys && x != t[0] {
        if x in t[1..] {
          var i :| 0 <= i < |t[1..]| && t[1..][i] == x;
          assert t[i + 1] == x;
          assert x in ToSet(t);
        }
        if x in keys && x != t[0] {
          assert x in ToSet(t);
          var i :| 0 <= i < |t| && t[i] == x;
          assert t[1..][i - 1] == x;
        }
      }
    }
  }

  /** A sorted permutation of a duplicate-free list enumerates its elements. */
  lemma SortedPermutationEnumerates(s: seq<string>, t: seq<string>)
    requires SortedPermutation(s, t) && NoDup(s)
    ensures Enumerates(t, ToSet(s))
  {
    NoDupMultiset(s);
    assert forall x :: x in t <==> x in multiset(t);
    assert forall x :: x in s <==> x in multiset(s);
    assert ToSet(t) == ToSet(s);
    forall i, j | 0 <= i < j < |t| ensures t[i] != t[j] {
      RepeatCounts(t, i, j);
    }
  }

  /** Membership in an enumeration is membership in the set. */
  lemma EnumeratesMember(t: seq<string>, keys: set<string>, x: string)
    requires Enumerates(t, keys)
    ensures x in t <==> x in keys
  {
    assert x in t <==> x in ToSet(t);
  }

  /** Stands for a loop over the keys of a map, in whatever order they come. */
  method Listed(keys: set<string>) returns (s: seq<string>)
    ensures NoDup(s) && ToSet(s) == keys
  {
    s := [];
    var todo := keys;
    while todo != {}
      invariant todo <= keys && ToSet(s) == keys - todo && NoDup(s)
      decreases todo
    {
      var x :| x in todo;
      assert x !in s by {
        assert x !in ToSet(s);
      }
      AppendNoDup(s, x);
      assert ToSet(s + [x]) == ToSet(s) + {x};
      s, todo := s + [x], todo - {x};
    }
  }

  /** The keys of a map, listed and then sorted. */
  method SortedKeys(keys: set<string>) returns (t: seq<string>)
    ensures Enumerates(t, keys)
  {
    var s := Listed(keys);
    t := SortStrings(s);
    SortedPermutationEnumerates(s, t);
  }

  lemma RepeatCounts<T>(t: seq<T>, i: nat, j: nat)
    requires i < j < |t|
    ensures multiset(t)[t[j]] >= if t[i] == t[j] then 2 else 1
  {
    assert t == t[..j] + [t[j]] + t[j + 1..];
    assert t[i] in t[..j];
  }

  lemma {:induction false} NoDupMultiset<T>(s: seq<T>)
    requires NoDup(s)
    ensures forall x :: x in s ==> multiset(s)[x] == 1
  {
    if s != [] {
      var front, last := s[..|s| - 1], s[|s| - 1];
      NoDupMultiset(front);
      assert s == front + [last];
      assert last !in front;
    }
  }

  /** Stands for `sort.Strings`, which works in place on a fresh slice. */
  method SortStrings(s: seq<string>) returns (t: seq<string>)
    ensures SortedPermutation(s, t)
  {
    t := [];
    for n := 0 to |s|
      invariant SortedPermutation(s[..n], t)
    {
      t := InsertSorted(t, s[n]);
      assert s[..n + 1] == s[..n] + [s[n]];
    }
    assert s[..|s|] == s;
  }

  method InsertSorted(t: seq<string>, x: string) returns (u: seq<string>)
    requires Sorted(t)
    ensures Sorted(u) && multiset(u) == multiset(t) + multiset{x}
  {
    var k := 0;
    while k < |t| && Leq(t[k], x)
      invariant 0 <= k <= |t|
      invariant forall i :: 0 <= i < k ==> Leq(t[i], x)
    {
      k := k + 1;
    }
    forall j | k <= j < |t| ensures Leq(x, t[j]) {
      BelowRest(t, x, k, j);
    }
    InsertedSorted(t, x, k);
    u := t[..k] + [x] + t[k..];
    assert t == t[..k] + t[k..];
  }

  lemma BelowRest(t: seq<string>, x: string, k: nat, j: nat)
    requires Sorted(t) && k <= j < |t| && !Leq(t[k], x)
    ensures Leq(x, t[j])
  {
    LeqTotal(t[k], x);
    if j > k {
      LeqTransitive(x, t[k], t[j]);
    }
  }

  lemma InsertedSorted(t: seq<string>, x: string, k: nat)
    requires Sorted(t) && k <= |t|
    requires (forall i :: 0 <= i < k ==> Leq(t[i], x)) && (forall j :: k <= j < |t| ==> Leq(x, t[j]))
    ensures Sorted(t[..k] + [x] + t[k..])
  {
    var u := t[..k] + [x] + t[k..];
    forall i, j | 0 <= i < j < |u| ensures Leq(u[i], u[j]) {
      assert u[i] == if i < k then t[i] else if i == k then x else t[i - 1];
      assert u[j] == if j < k then t[j] else if j == k then x else t[j - 1];
    }
  }

  const DIGITS: string := "0123456789"

  /** Go's `%d` for a non-negative integer. */
  function Decimal(n: nat): (s: string)
    ensures s != [] && forall i :: 0 <= i < |s| ==> s[i] in DIGITS
    ensures s[0] == '0' <==> n == 0
    ensures n >= 10 <==> |s| >= 2
  {
    if n < 10 then [DIGITS[n]] else Decimal(n / 10) + [DIGITS[n % 10]]
  }

  lemma {:induction false} DecimalInjective(m: nat, n: nat)
    requires Decimal(m) == Decimal(n)
    ensures m == n
  {
    var s, t := Decimal(m), Decimal(n);
    if m >= 10 {
      assert s[|s| - 1] == t[|t| - 1];
      assert s[..|s| - 1] == Decimal(m / 10) && t[..|t| - 1] == Decimal(n / 10);
      DecimalInjective(m / 10, n / 10);
      DigitsDistinct(m % 10, n % 10);
    } else {
      DigitsDistinct(m, n);
    }
  }

  lemma DigitsDistinct(a: nat, b: nat)
    requires a < 10 && b < 10 && DIGITS[a] == DIGITS[b]
    ensures a == b
  {
    DigitCode(a);
    DigitCode(b);
  }

  lemma DigitCode(a: nat)
    requires a < 10
    ensures DIGITS[a] as int == '0' as int + a
  {
    assert a == 0 || a == 1 || a == 2 || a == 3 || a == 4 || a == 5 || a == 6 || a == 7 || a == 8 || a == 9;
  }

  // ----- suffixes -----

  predicate HasSuffix(s: string, suffix: string) {
    |suffix| <= |s| && s[|s| - |suffix|..] == suffix
  }

  /** A suffix that does not contain `sep` lies wholly after the last part. */
  lemma SuffixAfterSeparator(head: string, sep: char, tail: string, suffix: string)
    requires sep !in suffix
    ensures HasSuffix(head + [sep] + tail, suffix) <==> HasSuffix(tail, suffix)
  {
    var s := head + [sep] + tail;
    if |tail| < |suffix| <= |s| {
      var i := |suffix| - |tail| - 1;
      assert s[|s| - |suffix|..][i] == sep;
      assert suffix[i] != sep;
    }
    if |suffix| <= |tail| {
      assert s[|s| - |suffix|..] == tail[|tail| - |suffix|..];
    }
  }

  /** Two strings cut at the first occurrence of a separator agree piecewise. */
  lemma {:induction false} SplitAtSeparator(a: string, b: string, sep: char, x: string, y: string)
    requires sep !in a && sep !in b
    requires a + [sep] + x == b + [sep] + y
    ensures a == b && x == y
  {
    var s := a + [sep] + x;
    assert s == b + [sep] + y;
    assert s[|a|] == sep && s[|b|] == sep;
    assert forall i :: 0 <= i < |a| ==> s[i] == a[i];
    assert forall i :: 0 <= i < |b| ==> s[i] == b[i];
    assert a == s[..|a|] && b == s[..|a|];
    assert x == s[|a| + 1..] && y == s[|a| + 1..];
  }
}
