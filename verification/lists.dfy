/** Sequence operations shared by the pages: the checkbox toggle (`filter` or spread-append)
    and the order-preserving de-duplication `[...new Set(xs)]`. */
module Lists {

  /** No element occurs twice. */
  predicate NoDup<T(==)>(s: seq<T>) {
    forall i, j :: 0 <= i < j < |s| ==> s[i] != s[j]
  }

  /** `s.filter((y) => y !== x)`: every copy of `x` removed, the rest kept in order. */
  function Without<T(==)>(s: seq<T>, x: T): (r: seq<T>)
    ensures x !in r
    ensures multiset(r) == multiset(s)[x := 0]
    ensures x !in s ==> r == s
    ensures |r| <= |s|
  {
    if s == [] then []
    else
      assert s == [s[0]] + s[1..];
      if s[0] == x then Without(s[1..], x)
      else [s[0]] + Without(s[1..], x)
  }

  lemma {:induction false} WithoutAppend<T>(a: seq<T>, b: seq<T>, x: T)
    ensures Without(a + b, x) == Without(a, x) + Without(b, x)
  {
    if a == [] {
      assert a + b == b;
    } else {
      assert (a + b)[0] == a[0] && (a + b)[1..] == a[1..] + b;
      WithoutAppend(a[1..], b, x);
    }
  }

  lemma ConcatAssoc<T>(a: seq<T>, b: seq<T>, c: seq<T>)
    ensures a + (b + c) == (a + b) + c
  {
  }

  /** The filter drops exactly the copies of `x`: every other item stays, between what
      precedes it and what follows it. */
  lemma WithoutSplit<T>(a: seq<T>, y: T, b: seq<T>, x: T)
    ensures Without(a + [y] + b, x) == Without(a, x) + (if y == x then [] else [y]) + Without(b, x)
  {
    WithoutAppend(a + [y], b, x);
    WithoutAppend(a, [y], x);
    assert [y][1..] == [];
  }

  /** The checkbox toggle: a present item is removed (every copy), an absent one appended. */
  function Toggle<T(==)>(s: seq<T>, x: T): (r: seq<T>)
  {
    if x in s then Without(s, x) else s + [x]
  }

  /** After the toggle, `x` is present exactly when it was absent before; every other
      element keeps its number of occurrences. An absent `x` is added once, at the end,
      behind the unchanged list; a present one is filtered out (see `WithoutSplit` for
      the order the filter keeps). */
  lemma ToggleMembership<T>(s: seq<T>, x: T)
    ensures x in Toggle(s, x) <==> x !in s
    ensures multiset(Toggle(s, x))[x := 0] == multiset(s)[x := 0]
    ensures x !in s ==> |Toggle(s, x)| == |s| + 1 && Toggle(s, x)[..|s|] == s && Toggle(s, x)[|s|] == x
    ensures x !in s ==> multiset(Toggle(s, x))[x] == 1
    ensures x in s ==> Toggle(s, x) == Without(s, x)
  {
    if x !in s {
      assert Toggle(s, x)[|s|] == x;
    }
  }

  /** Toggling an absent item twice restores the list exactly. */
  lemma {:induction false} ToggleTwiceAbsent<T>(s: seq<T>, x: T)
    requires x !in s
    ensures Toggle(Toggle(s, x), x) == s
  {
    assert x in s + [x];
    WithoutAppend(s, [x], x);
    assert Without([x], x) == [];
    assert s + [] == s;
  }

  /** A toggle keeps a duplicate-free selection duplicate-free. */
  lemma ToggleKeepsNoDup<T>(s: seq<T>, x: T)
    requires NoDup(s)
    ensures NoDup(Toggle(s, x))
  {
    var r := Toggle(s, x);
    if x in s {
      forall y | y in r ensures multiset(r)[y] <= 1 {
        NoDupCounts(s, y);
      }
      CountsNoDup(r);
    }
  }

  lemma {:induction false} NoDupCounts<T>(s: seq<T>, y: T)
    requires NoDup(s)
    ensures multiset(s)[y] <= 1
  {
    if s != [] {
      assert s == [s[0]] + s[1..];
      assert NoDup(s[1..]) by {
        forall i, j | 0 <= i < j < |s[1..]| ensures s[1..][i] != s[1..][j] {
          assert s[i + 1] != s[j + 1];
        }
      }
      NoDupCounts(s[1..], y);
      if s[0] == y {
        assert y !in s[1..] by {
          forall k | 0 <= k < |s[1..]| ensures s[1..][k] != y {
            assert s[0] != s[k + 1];
          }
        }
      }
    }
  }

  lemma CountsNoDup<T>(s: seq<T>)
    requires forall y :: y in s ==> multiset(s)[y] <= 1
    ensures NoDup(s)
  {
    forall i, j | 0 <= i < j < |s| ensures s[i] != s[j] {
      var front := s[..j];
      assert s == front + s[j..];
      assert front[i] == s[i] && s[j..][0] == s[j];
      assert multiset(s)[s[j]] == multiset(front)[s[j]] + multiset(s[j..])[s[j]];
    }
  }

  /** `[...new Set(s)]`: each distinct element once, in order of first appearance.
      Defined by its last element, matching how the set grows while `s` is read. */
  function Distinct<T(==)>(s: seq<T>): (r: seq<T>)
    ensures NoDup(r)
    ensures forall y :: y in r ==> y in s
    ensures forall y :: y in s ==> y in r
    ensures |r| <= |s|
  {
    if s == [] then []
    else
      var init := Distinct(s[..|s| - 1]);
      var last := s[|s| - 1];
      assert s == s[..|s| - 1] + [last];
      if last in s[..|s| - 1] then init else init + [last]
  }

  /** Index of the first occurrence of `x` in `s`. */
  function FirstIndex<T(==)>(s: seq<T>, x: T): (k: nat)
    requires x in s
    ensures k < |s| && s[k] == x && x !in s[..k]
  {
    if s[0] == x then 0 else 1 + FirstIndex(s[1..], x)
  }

  /** Distinct lists its elements in order of first appearance in `s`. */
  lemma {:induction false} DistinctFirstAppearance<T>(s: seq<T>, i: nat, j: nat)
    requires i < j < |Distinct(s)|
    ensures FirstIndex(s, Distinct(s)[i]) < FirstIndex(s, Distinct(s)[j])
  {
    var init := s[..|s| - 1];
    var last := s[|s| - 1];
    var d := Distinct(init);
    assert s == init + [last];
    FirstIndexPrefix(init, last, Distinct(s)[i]);
    if j < |d| {
      DistinctFirstAppearance(init, i, j);
      FirstIndexPrefix(init, last, Distinct(s)[j]);
    } else {
      assert Distinct(s)[j] == last && last !in init;
      assert FirstIndex(s, last) == |init| by {
        assert forall t :: 0 <= t < |init| ==> s[t] == init[t];
      }
    }
  }

  lemma FirstIndexPrefix<T>(a: seq<T>, last: T, x: T)
    requires x in a
    ensures FirstIndex(a + [last], x) == FirstIndex(a, x)
  {
    var k := FirstIndex(a, x);
    var k' := FirstIndex(a + [last], x);
    assert forall t :: 0 <= t < |a| ==> (a + [last])[t] == a[t];
    assert forall t :: 0 <= t < k ==> a[..k][t] == a[t];
    assert forall t :: 0 <= t < k' ==> (a + [last])[..k'][t] == (a + [last])[t];
  }

  /** Appending an element already present leaves the de-duplicated list unchanged,
      appending a new one adds it at the end. */
  lemma DistinctSnoc<T>(s: seq<T>, x: T)
    ensures Distinct(s + [x]) == if x in s then Distinct(s) else Distinct(s) + [x]
  {
    assert (s + [x])[..|s + [x]| - 1] == s;
  }
}
