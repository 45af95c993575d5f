/** Orderings used by the pages' `sort` calls and by the store's `orderBy`.

    Dates and timestamps are kept as the ISO-8601 strings the app stores
    (`YYYY-MM-DD`, `toISOString()`); for strings of that fixed shape the
    code-unit (lexicographic) order `StrLe` is the chronological order, which
    is how `new Date(a.date) - new Date(b.date)` orders them. Sorting is an
    insertion sort whose contract promises a sorted permutation; the relative
    order of elements that compare equal is not stated. */
module Ordering {

  /** Lexicographic order on strings (`"a" < "b"` in JavaScript, and `Array.prototype.sort()`). */
  predicate StrLe(a: string, b: string)
    decreases |a|
  {
    |a| == 0 || (|b| > 0 && (a[0] < b[0] || (a[0] == b[0] && StrLe(a[1..], b[1..]))))
  }

  lemma {:induction false} StrLeTotal(a: string, b: string)
    ensures StrLe(a, b) || StrLe(b, a)
    decreases |a|
  {
    if |a| > 0 && |b| > 0 && a[0] == b[0] {
      StrLeTotal(a[1..], b[1..]);
    }
  }

  lemma {:induction false} StrLeTrans(a: string, b: string, c: string)
    requires StrLe(a, b) && StrLe(b, c)
    ensures StrLe(a, c)
    decreases |a|
  {
    if |a| > 0 && a[0] == b[0] && b[0] == c[0] {
      StrLeTrans(a[1..], b[1..], c[1..]);
    }
  }

  lemma {:induction false} StrLeAntisym(a: string, b: string)
    requires StrLe(a, b) && StrLe(b, a)
    ensures a == b
    decreases |a|
  {
    if |a| > 0 {
      StrLeAntisym(a[1..], b[1..]);
      assert a == [a[0]] + a[1..] && b == [b[0]] + b[1..];
    }
  }

  /** A common prefix does not decide the order of two strings. */
  lemma {:induction false} StrLeCommonPrefix(p: string, a: string, b: string)
    ensures StrLe(p + a, p + b) == StrLe(a, b)
    decreases |p|
  {
    if |p| > 0 {
      assert (p + a)[1..] == p[1..] + a && (p + b)[1..] == p[1..] + b;
      StrLeCommonPrefix(p[1..], a, b);
    } else {
      assert p + a == a && p + b == b;
    }
  }

  /** `le` is total and transitive: a comparator `sort` can use. */
  ghost predicate TotalPreorder<T(!new)>(le: (T, T) -> bool) {
    && (forall a, b :: le(a, b) || le(b, a))
    && (forall a, b, c :: le(a, b) && le(b, c) ==> le(a, c))
  }

  predicate Sorted<T>(s: seq<T>, le: (T, T) -> bool) {
    forall i, j :: 0 <= i < j < |s| ==> le(s[i], s[j])
  }

  /** Places `x` before the first element it may precede. */
  function Insert<T(!new)>(x: T, s: seq<T>, le: (T, T) -> bool): (r: seq<T>)
    requires TotalPreorder(le) && Sorted(s, le)
    ensures Sorted(r, le)
    ensures multiset(r) == multiset(s) + multiset{x}
    ensures |r| == |s| + 1
  {
    if s == [] then [x]
    else if le(x, s[0]) then
      assert forall j :: 0 < j < |s| ==> le(s[0], s[j]);
      [x] + s
    else
      var rest := Insert(x, s[1..], le);
      assert s == [s[0]] + s[1..];
      assert forall j :: 0 <= j < |s[1..]| ==> s[1..][j] == s[j + 1];
      ConsSorted(s[0], rest, x, s[1..], le);
      [s[0]] + rest
  }

  /** Putting `y` in front of a sorted permutation of `tail + [x]` stays sorted when
      `y` may precede `x` and every element of `tail`. */
  lemma ConsSorted<T>(y: T, rest: seq<T>, x: T, tail: seq<T>, le: (T, T) -> bool)
    requires Sorted(rest, le) && multiset(rest) == multiset(tail) + multiset{x}
    requires le(y, x) && forall j :: 0 <= j < |tail| ==> le(y, tail[j])
    ensures Sorted([y] + rest, le)
  {
    forall k | 0 <= k < |rest| ensures le(y, rest[k]) {
      assert rest[k] in multiset(rest);
      assert rest[k] == x || rest[k] in tail;
    }
    forall i, j | 0 <= i < j < |[y] + rest| ensures le(([y] + rest)[i], ([y] + rest)[j]) {
      assert ([y] + rest)[j] == rest[j - 1];
      assert i == 0 || ([y] + rest)[i] == rest[i - 1];
    }
  }

  /** A sort of `s` under `le`: sorted, and a permutation of `s`. */
  function Sort<T(!new)>(s: seq<T>, le: (T, T) -> bool): (r: seq<T>)
    requires TotalPreorder(le)
    ensures Sorted(r, le)
    ensures multiset(r) == multiset(s)
    ensures |r| == |s|
  {
    if s == [] then []
    else
      assert s == [s[0]] + s[1..];
      Insert(s[0], Sort(s[1..], le), le)
  }

  /** The head of a sorted non-empty sequence precedes (or ties with) every element. */
  lemma SortedHead<T(!new)>(s: seq<T>, le: (T, T) -> bool, y: T)
    requires TotalPreorder(le) && Sorted(s, le) && y in s
    ensures le(s[0], y)
  {
    var j :| 0 <= j < |s| && s[j] == y;
    assert le(s[0], s[0]);
  }

  /** The last element of a sorted non-empty sequence follows (or ties with) every element. */
  lemma SortedLast<T(!new)>(s: seq<T>, le: (T, T) -> bool, y: T)
    requires TotalPreorder(le) && Sorted(s, le) && y in s
    ensures le(y, s[|s| - 1])
  {
    var j :| 0 <= j < |s| && s[j] == y;
    assert le(y, y);
  }

  /** Ascending by a string key: `sort((a, b) => new Date(a.k) - new Date(b.k))`. */
  function AscendingBy<T>(key: T -> string): (T, T) -> bool {
    (a: T, b: T) => StrLe(key(a), key(b))
  }

  /** Descending by a string key: `sort((a, b) => new Date(b.k) - new Date(a.k))`. */
  function DescendingBy<T>(key: T -> string): (T, T) -> bool {
    (a: T, b: T) => StrLe(key(b), key(a))
  }

  lemma AscendingByIsPreorder<T(!new)>(key: T -> string)
    ensures TotalPreorder(AscendingBy(key))
  {
    var le := AscendingBy(key);
    forall a, b ensures le(a, b) || le(b, a) {
      StrLeTotal(key(a), key(b));
    }
    forall a, b, c | le(a, b) && le(b, c) ensures le(a, c) {
      StrLeTrans(key(a), key(b), key(c));
    }
  }

  lemma DescendingByIsPreorder<T(!new)>(key: T -> string)
    ensures TotalPreorder(DescendingBy(key))
  {
    var le := DescendingBy(key);
    forall a, b ensures le(a, b) || le(b, a) {
      StrLeTotal(key(a), key(b));
    }
    forall a, b, c | le(a, b) && le(b, c) ensures le(a, c) {
      StrLeTrans(key(c), key(b), key(a));
    }
  }
  /** Newest first by a string key: `sort((a, b) => new Date(b.k) - new Date(a.k))`
      and Dexie's `orderBy(k).reverse()` alike. */
  function NewestFirst<T(!new)>(s: seq<T>, key: T -> string): (r: seq<T>)
    ensures Sorted(r, DescendingBy(key))
    ensures multiset(r) == multiset(s)
  {
    DescendingByIsPreorder(key);
    Sort(s, DescendingBy(key))
  }


  /** The last of a list of strings sorted in text order is the greatest. */
  lemma SortedStringsLast(s: seq<string>, y: string)
    requires Sorted(s, AscendingBy(Itself)) && y in s
    ensures StrLe(y, s[|s| - 1])
  {
    var j :| 0 <= j < |s| && s[j] == y;
    StrLeTotal(y, y);
    if j < |s| - 1 {
      assert AscendingBy(Itself)(s[j], s[|s| - 1]);
      assert StrLe(Itself(s[j]), Itself(s[|s| - 1]));
    }
  }

  /** The identity key, for sorting strings themselves (`Array.prototype.sort()` with no comparator). */
  function Itself(s: string): string { s }

  /** Numeric order on integers. */
  function IntLe(a: int, b: int): bool { a <= b }

  lemma IntLeIsPreorder()
    ensures TotalPreorder(IntLe)
  {
  }
}
