/** Ordered containers: std::set and std::map keep their elements sorted by a strict order
    and ignore an element equivalent to one they hold. */
module Ordered {

  /** A comparator with the asymmetry and transitivity that ordered containers require. */
  ghost predicate StrictOrder<T(!new)>(less: (T, T) -> bool) {
    && (forall x, y :: less(x, y) ==> !less(y, x))
    && (forall x, y, z :: less(x, y) && less(y, z) ==> less(x, z))
  }

  predicate Sorted<T>(s: seq<T>, less: (T, T) -> bool) {
    forall i, j | 0 <= i < j < |s| :: less(s[i], s[j])
  }

  /** insert(): an equivalent element already there wins. */
  function Insert<T>(s: seq<T>, x: T, less: (T, T) -> bool): seq<T> {
    if s == [] then [x]
    else if less(x, s[0]) then [x] + s
    else if less(s[0], x) then [s[0]] + Insert(s[1..], x, less)
    else s
  }

  function InsertAll<T>(xs: seq<T>, less: (T, T) -> bool): seq<T>
    decreases |xs|
  {
    if xs == [] then [] else Insert(InsertAll(xs[..|xs| - 1], less), xs[|xs| - 1], less)
  }

  lemma {:induction false} InsertLast<T>(s: seq<T>, x: T, less: (T, T) -> bool)
    requires forall i | 0 <= i < |s| :: less(s[i], x) && !less(x, s[i])
    ensures Insert(s, x, less) == s + [x]
  {
    if s != [] {
      assert less(s[0], x);
      InsertLast(s[1..], x, less);
    }
  }

  lemma InsertAllNil<T>(less: (T, T) -> bool)
    ensures InsertAll([], less) == []
  {
  }

  lemma InsertAllEnd<T>(xs: seq<T>, x: T, less: (T, T) -> bool)
    ensures InsertAll(xs + [x], less) == Insert(InsertAll(xs, less), x, less)
  {
    assert (xs + [x])[..|xs|] == xs;
  }

  /** Inserting sorted elements one by one gives them back. */
  lemma {:induction false} InsertSorted<T(!new)>(xs: seq<T>, less: (T, T) -> bool)
    requires StrictOrder(less) && Sorted(xs, less)
    ensures InsertAll(xs, less) == xs
    decreases |xs|
  {
    if xs != [] {
      var init := xs[..|xs| - 1];
      InsertSorted(init, less);
      InsertLast(init, xs[|xs| - 1], less);
      assert init + [xs[|xs| - 1]] == xs;
    }
  }

  lemma {:induction false} InsertKeepsSorted<T(!new)>(s: seq<T>, x: T, less: (T, T) -> bool)
    requires StrictOrder(less) && Sorted(s, less)
    ensures Sorted(Insert(s, x, less), less)
    ensures forall y | y in Insert(s, x, less) :: y == x || y in s
  {
    if s == [] || less(x, s[0]) {
      assert forall i | 0 < i < |s| :: less(s[0], s[i]);
    } else if less(s[0], x) {
      InsertKeepsSorted(s[1..], x, less);
      var rest := Insert(s[1..], x, less);
      forall i | 0 <= i < |rest| ensures less(s[0], rest[i]) {
        assert rest[i] in rest;
      }
    }
  }

  lemma {:induction false} InsertAllSorted<T(!new)>(xs: seq<T>, less: (T, T) -> bool)
    requires StrictOrder(less)
    ensures Sorted(InsertAll(xs, less), less)
    ensures forall y | y in InsertAll(xs, less) :: y in xs
    decreases |xs|
  {
    if xs != [] {
      var init := xs[..|xs| - 1];
      InsertAllSorted(init, less);
      InsertKeepsSorted(InsertAll(init, less), xs[|xs| - 1], less);
    }
  }

  /** What equivalence under a comparator needs besides, to be transitive. */
  ghost predicate WeakOrder<T(!new)>(less: (T, T) -> bool) {
    StrictOrder(less) && forall x, y, z :: less(x, z) ==> less(x, y) || less(y, z)
  }

  predicate Equivalent<T>(x: T, y: T, less: (T, T) -> bool) {
    !less(x, y) && !less(y, x)
  }

  lemma {:induction false} InsertExactly<T(!new)>(s: seq<T>, x: T, less: (T, T) -> bool, y: T)
    requires StrictOrder(less) && Sorted(s, less)
    ensures y in Insert(s, x, less) <==> y in s || (y == x && forall z | z in s :: !Equivalent(z, x, less))
  {
    if s != [] && less(s[0], x) {
      InsertExactly(s[1..], x, less, y);
      assert forall z :: z in s <==> z == s[0] || z in s[1..];
    } else if s != [] && less(x, s[0]) {
      assert forall i | 0 < i < |s| :: less(s[0], s[i]);
      assert forall z | z in s :: less(x, z);
    } else if s != [] {
      assert s[0] in s && Equivalent(s[0], x, less);
    }
  }

  /** The value at position i, before which no equivalent one stands. */
  predicate FirstOfItsKind<T>(xs: seq<T>, i: nat, less: (T, T) -> bool) {
    i < |xs| && forall j | 0 <= j < i :: !Equivalent(xs[j], xs[i], less)
  }

  lemma FirstStays<T>(init: seq<T>, x: T, i: nat, less: (T, T) -> bool)
    ensures i < |init| ==> FirstOfItsKind(init + [x], i, less) == FirstOfItsKind(init, i, less)
    ensures FirstOfItsKind(init + [x], |init|, less) <==> forall z | z in init :: !Equivalent(z, x, less)
  {
    var xs := init + [x];
    assert forall j | 0 <= j < |init| :: xs[j] == init[j];
  }

  /** A container holds, of the values inserted in turn, exactly the first of each kind. */
  lemma {:induction false} InsertAllExactly<T(!new)>(xs: seq<T>, less: (T, T) -> bool, y: T)
    requires WeakOrder(less)
    ensures y in InsertAll(xs, less) <==> exists i :: 0 <= i < |xs| && xs[i] == y && FirstOfItsKind(xs, i, less)
    decreases |xs|
  {
    if xs != [] {
      var init, last := xs[..|xs| - 1], xs[|xs| - 1];
      assert xs == init + [last];
      InsertAllExactly(init, less, y);
      InsertAllSorted(init, less);
      InsertAllEnd(init, last, less);
      InsertExactly(InsertAll(init, less), last, less, y);
      forall i | 0 <= i < |xs|
        ensures i < |init| ==> xs[i] == init[i] && FirstOfItsKind(xs, i, less) == FirstOfItsKind(init, i, less)
      {
        FirstStays(init, last, i, less);
      }
      FirstStays(init, last, 0, less);
      NoEquivalent(init, last, less);
      assert xs[|init|] == last;
    }
  }

  lemma {:induction false} NoEquivalent<T(!new)>(xs: seq<T>, x: T, less: (T, T) -> bool)
    requires WeakOrder(less)
    ensures (forall z | z in InsertAll(xs, less) :: !Equivalent(z, x, less))
            <==> (forall z | z in xs :: !Equivalent(z, x, less))
    decreases |xs|
  {
    InsertAllSorted(xs, less);
    if xs != [] {
      var init, last := xs[..|xs| - 1], xs[|xs| - 1];
      assert xs == init + [last];
      NoEquivalent(init, x, less);
      NoEquivalent(init, last, less);
      InsertAllSorted(init, less);
      InsertAllEnd(init, last, less);
      var held := InsertAll(init, less);
      forall z
        ensures z in InsertAll(xs, less) <==>
                  z in held || (z == last && forall w | w in held :: !Equivalent(w, last, less))
      {
        InsertExactly(held, last, less, z);
      }
      assert forall z :: z in xs <==> z in init || z == last;
      if exists w :: w in held && Equivalent(w, last, less) {
        var w :| w in held && Equivalent(w, last, less);
        assert Equivalent(last, x, less) ==> Equivalent(w, x, less);
      }
    }
  }

  // ------------------------------------------------------------ std::string

  /** operator< of std::string. */
  predicate StrLess(a: string, b: string) {
    b != "" && (a == "" || a[0] < b[0] || (a[0] == b[0] && StrLess(a[1..], b[1..])))
  }

  /** `a` ends or has the lesser character at the first position where the two differ. */
  predicate LessAt(a: string, b: string, k: int) {
    0 <= k <= |a| && k < |b| && (forall i | 0 <= i < k :: a[i] == b[i]) && (k == |a| || a[k] < b[k])
  }

  lemma {:induction false} StrLessExactly(a: string, b: string)
    ensures StrLess(a, b) <==> exists k :: LessAt(a, b, k)
  {
    if a != "" && b != "" && a[0] == b[0] {
      StrLessExactly(a[1..], b[1..]);
      if StrLess(a[1..], b[1..]) {
        var k :| LessAt(a[1..], b[1..], k);
        assert forall i | 0 < i < |a| :: a[i] == a[1..][i - 1];
        assert forall i | 0 < i < |b| :: b[i] == b[1..][i - 1];
        assert LessAt(a, b, k + 1);
      }
      if k :| LessAt(a, b, k) {
        assert LessAt(a[1..], b[1..], k - 1);
      }
    } else if StrLess(a, b) {
      assert LessAt(a, b, 0);
    }
  }

  lemma {:induction false} StrLessAsymmetric(a: string, b: string)
    requires StrLess(a, b)
    ensures !StrLess(b, a)
  {
    if a != "" && a[0] == b[0] {
      StrLessAsymmetric(a[1..], b[1..]);
    }
  }

  lemma {:induction false} StrLessTransitive(a: string, b: string, c: string)
    requires StrLess(a, b) && StrLess(b, c)
    ensures StrLess(a, c)
  {
    if a != "" && a[0] == b[0] == c[0] {
      StrLessTransitive(a[1..], b[1..], c[1..]);
    }
  }

  lemma {:induction false} StrLessTotal(a: string, b: string)
    ensures StrLess(a, b) || StrLess(b, a) || a == b
  {
    if a != "" && b != "" && a[0] == b[0] {
      StrLessTotal(a[1..], b[1..]);
      assert a == [a[0]] + a[1..] && b == [b[0]] + b[1..];
    }
  }
}
