/**
 * Sorting as the server uses it: Go's `sort.Slice` and `sort.Strings`
 * reorder a slice in place by a "less" function. The library's algorithm is
 * not part of this model; `SortSlice` is an insertion sort with the
 * library's contract (the slice ends up ordered and is a permutation of what
 * it held). The rest of the module says when a sorted listing is unique.
 */
module Sorting {
  import Text

  ghost predicate Irreflexive<T(!new)>(less: (T, T) -> bool) {
    forall x :: !less(x, x)
  }

  ghost predicate Transitive<T(!new)>(less: (T, T) -> bool) {
    forall x, y, z :: less(x, y) && less(y, z) ==> less(x, z)
  }

  /** What `sort.Slice` asks of its less function. */
  ghost predicate StrictWeakOrder<T(!new)>(less: (T, T) -> bool) {
    && Irreflexive(less)
    && Transitive(less)
    && (forall x, y, z :: !less(x, y) && !less(y, z) ==> !less(x, z))
  }

  /** No element is less than one before it. */
  ghost predicate SortedBy<T>(s: seq<T>, less: (T, T) -> bool) {
    forall i, j :: 0 <= i < j < |s| ==> !less(s[j], s[i])
  }

  /** Every element is less than every later one. */
  ghost predicate StrictlySortedBy<T>(s: seq<T>, less: (T, T) -> bool) {
    forall i, j :: 0 <= i < j < |s| ==> less(s[i], s[j])
  }

  /** sort.Slice(a, less): orders `a` in place. */
  method SortSlice<T(!new)>(a: array<T>, less: (T, T) -> bool)
    requires StrictWeakOrder(less)
    modifies a
    ensures SortedBy(a[..], less)
    ensures multiset(a[..]) == multiset(old(a[..]))
  {
    if a.Length == 0 {
      return;
    }
    var i := 1;
    while i < a.Length
      invariant 1 <= i <= a.Length
      invariant SortedBy(a[..i], less)
      invariant multiset(a[..]) == multiset(old(a[..]))
    {
      Insert(a, i, less);
      i := i + 1;
    }
    assert a[..a.Length] == a[..];
  }

  /** One step of the insertion sort: moves a[i] down into the sorted prefix a[..i]. */
  method Insert<T(!new)>(a: array<T>, i: nat, less: (T, T) -> bool)
    requires StrictWeakOrder(less)
    requires i < a.Length && SortedBy(a[..i], less)
    modifies a
    ensures SortedBy(a[..i + 1], less)
    ensures multiset(a[..]) == multiset(old(a[..]))
  {
    var j := i;
    while j > 0 && less(a[j], a[j - 1])
      invariant 0 <= j <= i
      invariant multiset(a[..]) == multiset(old(a[..]))
      invariant Inserting(a[..], i, j, less)
    {
      ghost var s := a[..];
      SwapStep(s, i, j, less);
      a[j - 1], a[j] := a[j], a[j - 1];
      assert a[..] == s[j - 1 := s[j]][j := s[j - 1]];
      j := j - 1;
    }
    Inserted(a[..], i, j, less);
  }

  /**
   * The state of `Insert` while the element it moves sits at j: the other
   * elements of s[..i + 1] are in order, and the moving one is less than
   * everything after it.
   */
  ghost predicate Inserting<T>(s: seq<T>, i: nat, j: nat, less: (T, T) -> bool)
    requires j <= i < |s|
  {
    && (forall p, q :: 0 <= p < q <= i && p != j && q != j ==> !less(s[q], s[p]))
    && (forall q :: j < q <= i ==> less(s[j], s[q]))
  }

  lemma SwapStep<T(!new)>(s: seq<T>, i: nat, j: nat, less: (T, T) -> bool)
    requires StrictWeakOrder(less)
    requires 0 < j <= i < |s| && Inserting(s, i, j, less) && less(s[j], s[j - 1])
    ensures Inserting(s[j - 1 := s[j]][j := s[j - 1]], i, j - 1, less)
  {
    var t := s[j - 1 := s[j]][j := s[j - 1]];
    forall q | j - 1 < q <= i ensures less(t[j - 1], t[q]) {
      if q > j {
        assert t[q] == s[q];
      }
    }
    forall p, q | 0 <= p < q <= i && p != j - 1 && q != j - 1 ensures !less(t[q], t[p]) {
      if q == j {
        assert t[q] == s[j - 1] && t[p] == s[p];
      } else if p == j {
        assert t[p] == s[j - 1] && t[q] == s[q];
      } else {
        assert t[p] == s[p] && t[q] == s[q];
      }
    }
  }

  lemma Inserted<T(!new)>(s: seq<T>, i: nat, j: nat, less: (T, T) -> bool)
    requires StrictWeakOrder(less)
    requires j <= i < |s| && Inserting(s, i, j, less)
    requires j == 0 || !less(s[j], s[j - 1])
    ensures SortedBy(s[..i + 1], less)
  {
    forall p, q | 0 <= p < q <= i ensures !less(s[q], s[p]) {
      if q == j {
        if p < j - 1 {
          assert !less(s[j - 1], s[p]);
        }
      } else if p == j {
        assert less(s[j], s[q]);
      }
    }
  }

  /** The string order is a strict total order, hence fit for sort.Strings. */
  lemma StringOrder()
    ensures Irreflexive(Text.Less) && Transitive(Text.Less)
    ensures StrictWeakOrder(Text.Less)
    ensures forall x, y :: x != y ==> Text.Less(x, y) || Text.Less(y, x)
  {
    forall x ensures !Text.Less(x, x) {
      Text.LessIrreflexive(x);
    }
    forall x, y, z | Text.Less(x, y) && Text.Less(y, z) ensures Text.Less(x, z) {
      Text.LessTransitive(x, y, z);
    }
    forall x, y | x != y ensures Text.Less(x, y) || Text.Less(y, x) {
      Text.LessTotal(x, y);
    }
  }

  /** A sorted listing without repeats, of elements the order tells apart, is strictly sorted. */
  lemma SortedDistinctIsStrict<T>(s: seq<T>, less: (T, T) -> bool)
    requires SortedBy(s, less)
    requires forall i, j :: 0 <= i < j < |s| ==> s[i] != s[j]
    requires forall x, y :: x in s && y in s && x != y ==> less(x, y) || less(y, x)
    ensures StrictlySortedBy(s, less)
  {
    forall i, j | 0 <= i < j < |s| ensures less(s[i], s[j]) {
      assert s[i] in s && s[j] in s;
    }
  }

  /** A sequence whose multiset is that of a set repeats nothing and holds exactly that set. */
  lemma NoRepeats<T>(s: seq<T>, S: set<T>)
    requires multiset(s) == multiset(S)
    ensures forall i, j :: 0 <= i < j < |s| ==> s[i] != s[j]
    ensures forall x :: x in s <==> x in S
  {
    forall i, j | 0 <= i < j < |s| ensures s[i] != s[j] {
      if s[i] == s[j] {
        Twice(s, i, j);
      }
    }
    forall x ensures x in s <==> x in S {
      assert x in s <==> x in multiset(s);
      assert x in S <==> x in multiset(S);
    }
  }

  /** A reordering of a sequence without repeats has none either. */
  lemma PermutationNoRepeats<T>(s: seq<T>, t: seq<T>)
    requires multiset(s) == multiset(t)
    requires forall i, j :: 0 <= i < j < |t| ==> t[i] != t[j]
    ensures forall i, j :: 0 <= i < j < |s| ==> s[i] != s[j]
  {
    forall i, j | 0 <= i < j < |s| ensures s[i] != s[j] {
      if s[i] == s[j] {
        Twice(s, i, j);
        AtMostOnce(t, s[i]);
      }
    }
  }

  /** In a sequence without repeats every element occurs at most once. */
  lemma {:induction false} AtMostOnce<T>(t: seq<T>, x: T)
    requires forall i, j :: 0 <= i < j < |t| ==> t[i] != t[j]
    ensures multiset(t)[x] <= 1
    decreases |t|
  {
    if t != [] {
      var u := t[..|t| - 1];
      assert t == u + [t[|t| - 1]];
      AtMostOnce(u, x);
      if x == t[|t| - 1] {
        assert x !in u;
      }
    }
  }

  /** An element found at two positions occurs at least twice. */
  lemma Twice<T>(s: seq<T>, i: nat, j: nat)
    requires i < j < |s| && s[i] == s[j]
    ensures multiset(s)[s[i]] >= 2
  {
    assert s == s[..j] + [s[j]] + s[j + 1..];
    assert s[i] in s[..j];
  }

  /** Two strictly sorted sequences with the same elements are the same sequence. */
  lemma {:induction false} SortedUnique<T(!new)>(a: seq<T>, b: seq<T>, less: (T, T) -> bool)
    requires Irreflexive(less) && Transitive(less)
    requires StrictlySortedBy(a, less) && StrictlySortedBy(b, less)
    requires forall x :: x in a <==> x in b
    ensures a == b
    decreases |a|
  {
    SameEmptiness(a, b);
    if a != [] {
      FirstIsLeast(b, a[0], less);
      FirstIsLeast(a, b[0], less);
      assert a[0] == b[0];
      forall x ensures x in a[1..] <==> x in b[1..] {
        if x in a[1..] {
          FirstIsLeast(a[1..], x, less);
          assert less(a[0], x);
          assert x in b;
          var k :| 0 <= k < |b| && b[k] == x;
          assert k != 0 && b[1..][k - 1] == x;
        }
        if x in b[1..] {
          FirstIsLeast(b[1..], x, less);
          assert less(b[0], x);
          assert x in a;
          var m :| 0 <= m < |a| && a[m] == x;
          assert m != 0 && a[1..][m - 1] == x;
        }
      }
      SortedUnique(a[1..], b[1..], less);
      assert a == [a[0]] + a[1..] && b == [b[0]] + b[1..];
    }
  }

  lemma SameEmptiness<T>(a: seq<T>, b: seq<T>)
    requires forall x :: x in a <==> x in b
    ensures a == [] <==> b == []
  {
    if a != [] {
      assert a[0] in b;
    }
    if b != [] {
      assert b[0] in a;
    }
  }

  /** In a strictly sorted sequence the first element is below every other one. */
  lemma FirstIsLeast<T>(s: seq<T>, x: T, less: (T, T) -> bool)
    requires StrictlySortedBy(s, less) && x in s
    ensures x == s[0] || less(s[0], x)
  {
    var k :| 0 <= k < |s| && s[k] == x;
    if k > 0 {
      assert less(s[0], s[k]);
    }
  }

  /** Every finite non-empty set of strings has a least element. */
  lemma {:induction false} LeastExists(S: set<string>)
    requires S != {}
    ensures exists m :: m in S && forall x :: x in S && x != m ==> Text.Less(m, x)
    decreases |S|
  {
    var y :| y in S;
    if S == {y} {
      assert forall x :: x in S ==> x == y;
    } else {
      LeastExists(S - {y});
      var m :| m in S - {y} && forall x :: x in S - {y} && x != m ==> Text.Less(m, x);
      if Text.Less(y, m) {
        forall x | x in S && x != y ensures Text.Less(y, x) {
          if x != m {
            Text.LessTransitive(y, m, x);
          }
        }
      } else {
        Text.LessTotal(y, m);
        assert forall x :: x in S && x != m ==> Text.Less(m, x);
      }
    }
  }

  ghost function Least(S: set<string>): (m: string)
    requires S != {}
    ensures m in S && forall x :: x in S && x != m ==> Text.Less(m, x)
  {
    LeastExists(S);
    var m :| m in S && forall x :: x in S && x != m ==> Text.Less(m, x);
    m
  }

  /** The strings of S in ascending order, each once: what sorting the keys of a Go map yields. */
  ghost function SortedKeys(S: set<string>): (r: seq<string>)
    ensures StrictlySortedBy(r, Text.Less)
    ensures forall x :: x in r <==> x in S
    ensures |r| == |S|
    decreases |S|
  {
    if S == {} then []
    else
      var m := Least(S);
      var rest := SortedKeys(S - {m});
      PrependLeast(m, rest, Text.Less);
      [m] + rest
  }

  /** A strictly ascending listing of exactly the strings of S is SortedKeys(S). */
  lemma SortedKeysOf(s: seq<string>, S: set<string>)
    requires StrictlySortedBy(s, Text.Less)
    requires forall x :: x in s <==> x in S
    ensures SortedKeys(S) == s
  {
    StringOrder();
    SortedUnique(SortedKeys(S), s, Text.Less);
  }

  /** sort.Strings applied to the keys of a map, in any order, yields SortedKeys of the key set. */
  lemma SortedStringsOfSet(s: seq<string>, S: set<string>)
    requires SortedBy(s, Text.Less)
    requires multiset(s) == multiset(S)
    ensures s == SortedKeys(S)
  {
    NoRepeats(s, S);
    StringOrder();
    SortedDistinctIsStrict(s, Text.Less);
    SortedKeysOf(s, S);
  }

  lemma PrependLeast<T>(m: T, s: seq<T>, less: (T, T) -> bool)
    requires StrictlySortedBy(s, less)
    requires forall x :: x in s ==> less(m, x)
    ensures StrictlySortedBy([m] + s, less)
  {
    var t := [m] + s;
    forall i, j | 0 <= i < j < |t| ensures less(t[i], t[j]) {
      assert t[j] == s[j - 1];
      if i > 0 {
        assert t[i] == s[i - 1];
      } else {
        assert s[j - 1] in s;
      }
    }
  }
}
