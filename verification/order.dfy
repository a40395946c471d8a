/**
 * The orders `dump` sorts by, and `std::sort` over them: byte-wise order on
 * strings, lexicographic order on id sequences, and pairs compared first by
 * their first component, then by their second.
 */
module Order {
  /** Lexicographic order on number sequences, a proper prefix first. */
  predicate LexLess(a: seq<int>, b: seq<int>)
    decreases |a|
  {
    |b| > 0 && (|a| == 0 || a[0] < b[0] || (a[0] == b[0] && LexLess(a[1..], b[1..])))
  }

  lemma {:induction false} LexIrreflexive(a: seq<int>)
    ensures !LexLess(a, a)
    decreases |a|
  {
    if |a| > 0 {
      LexIrreflexive(a[1..]);
    }
  }

  lemma {:induction false} LexTransitive(a: seq<int>, b: seq<int>, c: seq<int>)
    requires LexLess(a, b) && LexLess(b, c)
    ensures LexLess(a, c)
    decreases |a|
  {
    if |a| > 0 && a[0] == b[0] && b[0] == c[0] {
      LexTransitive(a[1..], b[1..], c[1..]);
    }
  }

  lemma {:induction false} LexTotal(a: seq<int>, b: seq<int>)
    ensures a == b || LexLess(a, b) || LexLess(b, a)
    decreases |a|
  {
    if |a| > 0 && |b| > 0 && a[0] == b[0] {
      LexTotal(a[1..], b[1..]);
      if a[1..] == b[1..] {
        assert a == [a[0]] + a[1..] && b == [b[0]] + b[1..];
      }
    }
  }

  /** A string's characters as numbers (its bytes, for byte text). */
  function Codes(s: string): (c: seq<int>)
    ensures |c| == |s|
  {
    seq(|s|, i requires 0 <= i < |s| => s[i] as int)
  }

  lemma CodesInjective(a: string, b: string)
    ensures Codes(a) == Codes(b) <==> a == b
  {
    if Codes(a) == Codes(b) {
      forall i | 0 <= i < |a| ensures a[i] == b[i] {
        assert Codes(a)[i] == Codes(b)[i];
      }
    }
  }

  /** `std::string`'s `operator<`: compare character by character, a proper prefix first. */
  predicate StrLess(a: string, b: string) {
    LexLess(Codes(a), Codes(b))
  }

  /** A strict total order: irreflexive, transitive, and any two different elements are comparable. */
  ghost predicate StrictTotalOrder<T(!new)>(less: (T, T) -> bool) {
    && (forall x :: !less(x, x))
    && (forall x, y, z :: less(x, y) && less(y, z) ==> less(x, z))
    && (forall x, y :: x == y || less(x, y) || less(y, x))
  }

  /** `std::pair<std::string, int>`'s `operator<`. */
  predicate NameLess(x: (string, int), y: (string, int)) {
    StrLess(x.0, y.0) || (x.0 == y.0 && x.1 < y.1)
  }

  /** `std::pair<std::vector<int>, int>`'s `operator<`. */
  predicate RowLess(x: (seq<int>, int), y: (seq<int>, int)) {
    LexLess(x.0, y.0) || (x.0 == y.0 && x.1 < y.1)
  }

  lemma RowLessIsStrictTotal()
    ensures StrictTotalOrder(RowLess)
  {
    forall x: (seq<int>, int) ensures !RowLess(x, x) {
      LexIrreflexive(x.0);
    }
    forall x: (seq<int>, int), y: (seq<int>, int), z: (seq<int>, int) | RowLess(x, y) && RowLess(y, z)
      ensures RowLess(x, z)
    {
      if LexLess(x.0, y.0) && LexLess(y.0, z.0) {
        LexTransitive(x.0, y.0, z.0);
      }
    }
    forall x: (seq<int>, int), y: (seq<int>, int) ensures x == y || RowLess(x, y) || RowLess(y, x) {
      LexTotal(x.0, y.0);
    }
  }

  lemma NameLessIsStrictTotal()
    ensures StrictTotalOrder(NameLess)
  {
    forall x: (string, int) ensures !NameLess(x, x) {
      LexIrreflexive(Codes(x.0));
    }
    forall x: (string, int), y: (string, int), z: (string, int) | NameLess(x, y) && NameLess(y, z)
      ensures NameLess(x, z)
    {
      if StrLess(x.0, y.0) && StrLess(y.0, z.0) {
        LexTransitive(Codes(x.0), Codes(y.0), Codes(z.0));
      }
    }
    forall x: (string, int), y: (string, int) ensures x == y || NameLess(x, y) || NameLess(y, x) {
      LexTotal(Codes(x.0), Codes(y.0));
      CodesInjective(x.0, y.0);
    }
  }

  /** Every element is smaller than every later one. */
  predicate StrictlySorted<T>(s: seq<T>, less: (T, T) -> bool) {
    forall i, j :: 0 <= i < j < |s| ==> less(s[i], s[j])
  }

  /** In a strictly increasing sequence, positions holding equal elements are the same position. */
  lemma SortedPositions<T(!new)>(s: seq<T>, less: (T, T) -> bool, i: int, j: int)
    requires StrictTotalOrder(less) && StrictlySorted(s, less)
    requires 0 <= i < |s| && 0 <= j < |s|
    ensures s[i] == s[j] <==> i == j
  {
    if i < j {
      assert less(s[i], s[j]);
    } else if j < i {
      assert less(s[j], s[i]);
    }
  }

  predicate Distinct<T(==)>(s: seq<T>) {
    forall i, j :: 0 <= i < j < |s| ==> s[i] != s[j]
  }

  function Insert<T>(x: T, s: seq<T>, less: (T, T) -> bool): (r: seq<T>)
    ensures multiset(r) == multiset(s) + multiset{x}
  {
    if s == [] then [x]
    else if less(s[0], x) then
      assert s == [s[0]] + s[1..];
      [s[0]] + Insert(x, s[1..], less)
    else [x] + s
  }

  /** `std::sort` by `less`: a rearrangement of its input. */
  function Sort<T>(s: seq<T>, less: (T, T) -> bool): (r: seq<T>)
    ensures multiset(r) == multiset(s)
  {
    if s == [] then []
    else
      assert s == [s[0]] + s[1..];
      Insert(s[0], Sort(s[1..], less), less)
  }

  lemma {:induction false} InsertSorted<T(!new)>(x: T, s: seq<T>, less: (T, T) -> bool)
    requires StrictTotalOrder(less) && StrictlySorted(s, less) && x !in s
    ensures StrictlySorted(Insert(x, s, less), less)
    decreases |s|
  {
    if s != [] && less(s[0], x) {
      assert s == [s[0]] + s[1..];
      InsertSorted(x, s[1..], less);
      InsertAbove(x, s[1..], less, s[0]);
    } else if s != [] {
      assert x != s[0];
    }
  }

  /** A lower bound of `x` and of all of `s` is a lower bound of `Insert(x, s)`. */
  lemma InsertAbove<T>(x: T, s: seq<T>, less: (T, T) -> bool, y: T)
    requires less(y, x) && forall j :: 0 <= j < |s| ==> less(y, s[j])
    ensures forall j :: 0 <= j < |Insert(x, s, less)| ==> less(y, Insert(x, s, less)[j])
  {
    var r := Insert(x, s, less);
    forall j | 0 <= j < |r| ensures less(y, r[j]) {
      assert r[j] in multiset(r);
      if r[j] != x {
        assert r[j] in multiset(s);
      }
    }
  }

  /** Sorting elements that are all different yields them in increasing order. */
  lemma {:induction false} SortSorted<T(!new)>(s: seq<T>, less: (T, T) -> bool)
    requires StrictTotalOrder(less) && Distinct(s)
    ensures StrictlySorted(Sort(s, less), less)
    decreases |s|
  {
    if s != [] {
      SortSorted(s[1..], less);
      var r := Sort(s[1..], less);
      assert forall j :: 0 <= j < |s| - 1 ==> s[1..][j] == s[j + 1];
      assert s[0] !in s[1..];
      assert s[0] !in multiset(r);
      InsertSorted(s[0], r, less);
    }
  }

  /** The first element of an increasing sequence is below every other element. */
  lemma HeadIsLeast<T>(s: seq<T>, x: T, less: (T, T) -> bool)
    requires StrictlySorted(s, less) && x in s
    ensures x == s[0] || less(s[0], x)
  {
    var j :| 0 <= j < |s| && s[j] == x;
    if j > 0 {
      assert less(s[0], s[j]);
    }
  }

  lemma SameElementsBothEmpty<T>(s: seq<T>, t: seq<T>)
    requires forall x :: x in s <==> x in t
    ensures s == [] <==> t == []
  {
    if s != [] {
      assert s[0] in t;
    }
    if t != [] {
      assert t[0] in s;
    }
  }

  /** Two increasing sequences with the same elements are equal. */
  lemma {:induction false} SortedUnique<T(!new)>(s: seq<T>, t: seq<T>, less: (T, T) -> bool)
    requires StrictTotalOrder(less) && StrictlySorted(s, less) && StrictlySorted(t, less)
    requires forall x :: x in s <==> x in t
    ensures s == t
    decreases |s|
  {
    SameElementsBothEmpty(s, t);
    if s != [] {
      HeadIsLeast(s, t[0], less);
      HeadIsLeast(t, s[0], less);
      assert s[0] == t[0];
      assert s == [s[0]] + s[1..] && t == [t[0]] + t[1..];
      forall x | x in s[1..] ensures x in t[1..] {
        HeadIsLeast(s[1..], x, less);
        assert x in s && x != s[0];
      }
      forall x | x in t[1..] ensures x in s[1..] {
        assert x in t && x != t[0];
      }
      SortedUnique(s[1..], t[1..], less);
    }
  }

  lemma SortKeepsElements<T>(s: seq<T>, less: (T, T) -> bool)
    ensures forall x :: x in Sort(s, less) <==> x in s
  {
    forall x ensures x in Sort(s, less) <==> x in s {
      assert x in Sort(s, less) <==> x in multiset(Sort(s, less));
      assert x in s <==> x in multiset(s);
    }
  }

  /**
   * The sorted result depends only on which elements are sorted, not on the
   * order they arrive in (here: the hash tables' iteration order).
   */
  lemma SortIgnoresArrivalOrder<T(!new)>(s: seq<T>, t: seq<T>, less: (T, T) -> bool)
    requires StrictTotalOrder(less) && Distinct(s) && Distinct(t)
    requires forall x :: x in s <==> x in t
    ensures Sort(s, less) == Sort(t, less)
  {
    SortSorted(s, less);
    SortSorted(t, less);
    SortKeepsElements(s, less);
    SortKeepsElements(t, less);
    SortedUnique(Sort(s, less), Sort(t, less), less);
  }
}
