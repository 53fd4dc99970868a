/** Sorting as the service uses it: a stable sort by a strict weak order, and the
    fact that a sort has only one outcome when the order decides every pair. */
module Sorting {

  ghost predicate StrictWeak<T(!new)>(less: (T, T) -> bool) {
    && (forall a :: !less(a, a))
    && (forall a, b, c :: less(a, b) && less(b, c) ==> less(a, c))
    && (forall a, b, c :: less(a, c) ==> less(a, b) || less(b, c))
  }

  ghost predicate Sorted<T>(s: seq<T>, less: (T, T) -> bool) {
    forall i, j :: 0 <= i < j < |s| ==> !less(s[j], s[i])
  }

  /** Entries that tie are equal. */
  ghost predicate Decided<T>(s: seq<T>, less: (T, T) -> bool) {
    forall i, j :: 0 <= i < j < |s| ==> less(s[i], s[j]) || less(s[j], s[i]) || s[i] == s[j]
  }

  /** Puts x in front of the first entry that does not precede it. */
  function Insert<T>(x: T, s: seq<T>, less: (T, T) -> bool): (r: seq<T>)
    ensures multiset(r) == multiset{x} + multiset(s)
  {
    if s == [] || !less(s[0], x) then [x] + s
    else
      assert s == [s[0]] + s[1..];
      [s[0]] + Insert(x, s[1..], less)
  }

  /** The outcome of a stable sort. */
  function Sort<T>(s: seq<T>, less: (T, T) -> bool): (r: seq<T>)
    ensures multiset(r) == multiset(s)
    ensures |r| == |s|
  {
    if s == [] then []
    else
      assert s == [s[0]] + s[1..];
      var r := Insert(s[0], Sort(s[1..], less), less);
      assert |r| == |multiset(r)| == |multiset(s)| == |s|;
      r
  }

  lemma MemberOfMultiset<T>(a: seq<T>, b: seq<T>)
    requires multiset(a) == multiset(b)
    ensures forall x :: x in a <==> x in b
  {
    assert forall x :: x in a <==> x in multiset(a);
    assert forall x :: x in b <==> x in multiset(b);
  }

  lemma {:induction false} InsertSorted<T(!new)>(x: T, s: seq<T>, less: (T, T) -> bool)
    requires StrictWeak(less) && Sorted(s, less)
    ensures Sorted(Insert(x, s, less), less)
  {
    if s == [] || !less(s[0], x) {
      var r := Insert(x, s, less);
      forall i, j | 0 <= i < j < |r|
        ensures !less(r[j], r[i])
      {
        if i == 0 && j > 1 { assert !less(s[j - 1], s[0]); }
      }
    } else {
      InsertSorted(x, s[1..], less);
      var rest := Insert(x, s[1..], less);
      assert multiset(rest) == multiset([x] + s[1..]);
      MemberOfMultiset(rest, [x] + s[1..]);
      forall y | y in rest
        ensures !less(y, s[0])
      {
        if y != x {
          assert y in s[1..];
          var k :| 0 <= k < |s[1..]| && s[1..][k] == y;
          assert s[k + 1] == y;
        }
      }
    }
  }

  lemma {:induction false} SortSorted<T(!new)>(s: seq<T>, less: (T, T) -> bool)
    requires StrictWeak(less)
    ensures Sorted(Sort(s, less), less)
  {
    if s != [] {
      SortSorted(s[1..], less);
      InsertSorted(s[0], Sort(s[1..], less), less);
    }
  }

  /** Sorting a sorted sequence changes nothing. */
  lemma {:induction false} SortOfSorted<T>(s: seq<T>, less: (T, T) -> bool)
    requires Sorted(s, less)
    ensures Sort(s, less) == s
  {
    if s != [] {
      SortOfSorted(s[1..], less);
      if |s| > 1 { assert !less(s[1], s[0]); }
    }
  }

  /** The entries of s tied with e, in order. */
  function TiedWith<T>(e: T, s: seq<T>, less: (T, T) -> bool): seq<T> {
    if s == [] then []
    else (if !less(e, s[0]) && !less(s[0], e) then [s[0]] else []) + TiedWith(e, s[1..], less)
  }

  lemma TiedCons<T>(e: T, x: T, s: seq<T>, less: (T, T) -> bool)
    ensures TiedWith(e, [x] + s, less) == (if !less(e, x) && !less(x, e) then [x] else []) + TiedWith(e, s, less)
  {
    assert ([x] + s)[1..] == s;
  }

  lemma OrderedNotBothTied<T(!new)>(e: T, x: T, y: T, less: (T, T) -> bool)
    requires StrictWeak(less) && less(y, x)
    ensures !(!less(e, x) && !less(x, e) && !less(e, y) && !less(y, e))
  {
  }

  lemma InsertStep<T>(x: T, s: seq<T>, less: (T, T) -> bool)
    ensures if s == [] || !less(s[0], x) then Insert(x, s, less) == [x] + s
            else Insert(x, s, less) == [s[0]] + Insert(x, s[1..], less) && s == [s[0]] + s[1..]
  {
  }

  /** Moving x past a smaller y keeps the ties. */
  lemma MovePast<T(!new)>(e: T, x: T, y: T, rest: seq<T>, inserted: seq<T>, less: (T, T) -> bool)
    requires StrictWeak(less) && less(y, x) && TiedWith(e, inserted, less) == TiedWith(e, [x] + rest, less)
    ensures TiedWith(e, [y] + inserted, less) == TiedWith(e, [x] + ([y] + rest), less)
  {
    hide StrictWeak, TiedWith;
    OrderedNotBothTied(e, x, y, less);
    TiedCons(e, y, inserted, less);
    TiedCons(e, x, rest, less);
    TiedCons(e, x, [y] + rest, less);
    TiedCons(e, y, rest, less);
  }

  lemma {:induction false} InsertKeepsTies<T(!new)>(e: T, x: T, s: seq<T>, less: (T, T) -> bool)
    requires StrictWeak(less)
    ensures TiedWith(e, Insert(x, s, less), less) == TiedWith(e, [x] + s, less)
  {
    hide StrictWeak, TiedWith, Insert;
    InsertStep(x, s, less);
    if s != [] && less(s[0], x) {
      InsertKeepsTies(e, x, s[1..], less);
      MovePast(e, x, s[0], s[1..], Insert(x, s[1..], less), less);
    }
  }

  /** Stability: tied entries come out in the order they went in. */
  lemma {:induction false} SortStable<T(!new)>(e: T, s: seq<T>, less: (T, T) -> bool)
    requires StrictWeak(less)
    ensures TiedWith(e, Sort(s, less), less) == TiedWith(e, s, less)
  {
    if s != [] {
      SortStable(e, s[1..], less);
      InsertKeepsTies(e, s[0], Sort(s[1..], less), less);
      assert ([s[0]] + Sort(s[1..], less))[1..] == Sort(s[1..], less);
    }
  }

  lemma FirstAgrees<T>(a: seq<T>, b: seq<T>, less: (T, T) -> bool)
    requires Sorted(a, less) && Sorted(b, less) && Decided(a, less)
    requires multiset(a) == multiset(b) && a != [] && b != []
    ensures a[0] == b[0]
  {
    MemberOfMultiset(a, b);
    assert a[0] in b && b[0] in a;
    var i :| 0 <= i < |b| && b[i] == a[0];
    var j :| 0 <= j < |a| && a[j] == b[0];
    assert i == 0 || j == 0 || a[0] == a[j];
  }

  lemma TailMultiset<T>(s: seq<T>)
    requires s != []
    ensures multiset(s[1..]) == multiset(s) - multiset{s[0]}
  {
    assert s == [s[0]] + s[1..];
  }

  lemma SameSize<T>(a: seq<T>, b: seq<T>)
    requires multiset(a) == multiset(b)
    ensures |a| == |b|
  {
    assert |a| == |multiset(a)| && |b| == |multiset(b)|;
  }

  lemma TailSorted<T>(s: seq<T>, less: (T, T) -> bool)
    requires s != []
    ensures Sorted(s, less) ==> Sorted(s[1..], less)
    ensures Decided(s, less) ==> Decided(s[1..], less)
  {
  }

  lemma TailsAgree<T>(a: seq<T>, b: seq<T>)
    requires a != [] && b != [] && a[0] == b[0] && multiset(a) == multiset(b)
    ensures multiset(a[1..]) == multiset(b[1..])
    ensures a[1..] == b[1..] ==> a == b
  {
    TailMultiset(a);
    TailMultiset(b);
    assert a == [a[0]] + a[1..] && b == [b[0]] + b[1..];
  }

  /** When ties are equal, any two sorted arrangements of the same entries are equal. */
  lemma {:induction false} SortUnique<T>(a: seq<T>, b: seq<T>, less: (T, T) -> bool)
    requires Sorted(a, less) && Sorted(b, less) && Decided(a, less)
    requires multiset(a) == multiset(b)
    ensures a == b
  {
    hide Sorted, Decided;
    SameSize(a, b);
    if a != [] {
      FirstAgrees(a, b, less);
      TailsAgree(a, b);
      TailSorted(a, less);
      TailSorted(b, less);
      SortUnique(a[1..], b[1..], less);
    }
  }

  // ---------------------------------------------------------------------
  // Sequences without repeats
  // ---------------------------------------------------------------------

  ghost predicate Distinct<T>(s: seq<T>) {
    forall i, j :: 0 <= i < j < |s| ==> s[i] != s[j]
  }

  lemma {:induction false} DistinctOnce<T>(s: seq<T>, x: T)
    requires Distinct(s)
    ensures multiset(s)[x] == if x in s then 1 else 0
  {
    if s != [] {
      DistinctOnce(s[1..], x);
      assert s == [s[0]] + s[1..];
      assert s[0] !in s[1..];
    }
  }

  lemma DistinctSameMembers<T>(a: seq<T>, b: seq<T>)
    requires Distinct(a) && Distinct(b) && forall x :: x in a <==> x in b
    ensures multiset(a) == multiset(b)
  {
    forall x: T ensures multiset(a)[x] == multiset(b)[x] { DistinctOnce(a, x); DistinctOnce(b, x); }
  }

  lemma TwiceInMultiset<T>(s: seq<T>, i: nat, j: nat)
    requires i < j < |s| && s[i] == s[j]
    ensures multiset(s)[s[i]] >= 2
  {
    assert s == s[..j] + [s[j]] + s[j + 1..];
    assert s[..j][i] == s[j];
  }

  lemma RearrangedDistinct<T>(a: seq<T>, b: seq<T>)
    requires Distinct(a) && multiset(a) == multiset(b)
    ensures Distinct(b)
  {
    forall i, j | 0 <= i < j < |b|
      ensures b[i] != b[j]
    {
      DistinctOnce(a, b[i]);
      if b[i] == b[j] { TwiceInMultiset(b, i, j); }
    }
  }

  /** Two sorted lists without repeats, with the same members, are equal. */
  lemma SortedSetUnique<T(!new)>(a: seq<T>, b: seq<T>, less: (T, T) -> bool)
    requires Sorted(a, less) && Sorted(b, less) && Decided(a, less)
    requires Distinct(a) && Distinct(b) && forall x :: x in a <==> x in b
    ensures a == b
  {
    DistinctSameMembers(a, b);
    SortUnique(a, b, less);
  }

  // ---------------------------------------------------------------------
  // The order of strings
  // ---------------------------------------------------------------------

  /** Lexicographic order, as the built-in comparison of strings. */
  predicate StringLess(a: string, b: string) {
    b != [] && (a == [] || a[0] < b[0] || (a[0] == b[0] && StringLess(a[1..], b[1..])))
  }

  /** One string precedes another if it is a proper prefix of it, or smaller where
      they first differ. */
  lemma {:induction false} StringLessMeans(a: string, b: string)
    ensures StringLess(a, b) <==> exists k :: DiffersAt(a, b, k) && (k == |a| || (k < |b| && a[k] < b[k]))
  {
    if a != [] && b != [] && a[0] == b[0] {
      StringLessMeans(a[1..], b[1..]);
      forall k
        ensures DiffersAt(a, b, k + 1) <==> DiffersAt(a[1..], b[1..], k)
      {
        if 0 <= k <= |a| - 1 && k <= |b| - 1 { assert a[1..][..k] == a[..k + 1][1..] && b[1..][..k] == b[..k + 1][1..]; }
      }
      if k :| DiffersAt(a, b, k) && (k == |a| || (k < |b| && a[k] < b[k])) {
        assert DiffersAt(a[1..], b[1..], k - 1);
      }
      if k :| DiffersAt(a[1..], b[1..], k) && (k == |a| - 1 || (k < |b| - 1 && a[1..][k] < b[1..][k])) {
        assert DiffersAt(a, b, k + 1);
      }
    } else {
      assert a[..0] == b[..0] == [];
      if a != b { assert DiffersAt(a, b, 0); }
    }
  }

  /** The first k characters agree, and there the strings part. */
  ghost predicate DiffersAt(a: string, b: string, k: int) {
    0 <= k <= |a| && k <= |b| && a[..k] == b[..k] && a != b && (k < |a| && k < |b| ==> a[k] != b[k])
  }

  lemma {:induction false} StringLessIrreflexive(a: string)
    ensures !StringLess(a, a)
  {
    if a != [] { StringLessIrreflexive(a[1..]); }
  }

  lemma {:induction false} StringLessTransitive(a: string, b: string, c: string)
    requires StringLess(a, b) && StringLess(b, c)
    ensures StringLess(a, c)
  {
    if a != [] && a[0] == b[0] == c[0] { StringLessTransitive(a[1..], b[1..], c[1..]); }
  }

  lemma {:induction false} StringLessTotal(a: string, b: string)
    ensures a == b || StringLess(a, b) || StringLess(b, a)
  {
    if a != [] && b != [] && a[0] == b[0] {
      StringLessTotal(a[1..], b[1..]);
      assert a == [a[0]] + a[1..] && b == [b[0]] + b[1..];
    }
  }

  lemma StringLessOrder()
    ensures forall a: string :: !StringLess(a, a)
    ensures forall a: string, b: string, c: string {:trigger StringLess(a, b), StringLess(b, c)} ::
              StringLess(a, b) && StringLess(b, c) ==> StringLess(a, c)
    ensures forall a: string, b: string :: a == b || StringLess(a, b) || StringLess(b, a)
  {
    forall a: string ensures !StringLess(a, a) { StringLessIrreflexive(a); }
    forall a: string, b: string, c: string | StringLess(a, b) && StringLess(b, c)
      ensures StringLess(a, c)
    {
      StringLessTransitive(a, b, c);
    }
    forall a: string, b: string ensures a == b || StringLess(a, b) || StringLess(b, a) { StringLessTotal(a, b); }
  }
}
