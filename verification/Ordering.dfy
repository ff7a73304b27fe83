/** Sorting, duplicates and permutations of sequences. */
module Ordering {
  function Map<S, T>(f: S -> T, s: seq<S>): (r: seq<T>)
    ensures |r| == |s| && forall i :: 0 <= i < |s| ==> r[i] == f(s[i])
  {
    seq(|s|, i requires 0 <= i < |s| => f(s[i]))
  }

  ghost predicate NoDuplicates<T(!new)>(s: seq<T>) {
    forall i, j :: 0 <= i < j < |s| ==> s[i] != s[j]
  }

  lemma NoDuplicatesSnoc<T(!new)>(s: seq<T>, x: T)
    ensures NoDuplicates(s + [x]) <==> NoDuplicates(s) && x !in s
  {
    if NoDuplicates(s + [x]) {
      forall i, j | 0 <= i < j < |s| ensures s[i] != s[j] {
        assert (s + [x])[i] == s[i] && (s + [x])[j] == s[j];
      }
      forall i | 0 <= i < |s| ensures s[i] != x {
        assert (s + [x])[i] == s[i] && (s + [x])[|s|] == x;
      }
    }
  }

  /** Having no duplicates is a matter of multiplicities, not of order. */
  lemma {:induction false} NoDuplicatesIsOrderFree<T(!new)>(s: seq<T>)
    ensures NoDuplicates(s) <==> forall x :: multiset(s)[x] <= 1
  {
    if s != [] {
      var t, x := s[..|s| - 1], s[|s| - 1];
      assert s == t + [x];
      NoDuplicatesIsOrderFree(t);
      NoDuplicatesSnoc(t, x);
      assert multiset(s) == multiset(t)[x := multiset(t)[x] + 1];
      assert x in t <==> multiset(t)[x] > 0;
      if NoDuplicates(s) {
        forall y ensures multiset(s)[y] <= 1 {
          assert multiset(t)[y] <= 1;
        }
      }
      if forall y :: multiset(s)[y] <= 1 {
        forall y ensures multiset(t)[y] <= 1 {
          assert multiset(t)[y] <= multiset(s)[y];
        }
        assert multiset(s)[x] <= 1;
      }
    }
  }

  lemma SameElements<T(!new)>(a: seq<T>, b: seq<T>, x: T)
    requires multiset(a) == multiset(b)
    ensures x in a <==> x in b
  {
    assert x in a <==> x in multiset(a);
    assert x in b <==> x in multiset(b);
  }

  lemma SameNoDuplicates<T(!new)>(a: seq<T>, b: seq<T>)
    requires multiset(a) == multiset(b)
    ensures NoDuplicates(a) <==> NoDuplicates(b)
    ensures |a| == |b|
  {
    NoDuplicatesIsOrderFree(a);
    NoDuplicatesIsOrderFree(b);
    assert |a| == |multiset(a)| && |b| == |multiset(b)|;
  }

  lemma MapConcat<S, T>(f: S -> T, a: seq<S>, x: S, b: seq<S>)
    ensures Map(f, a + [x] + b) == Map(f, a) + [f(x)] + Map(f, b)
  {
    assert |Map(f, a + [x] + b)| == |Map(f, a) + [f(x)] + Map(f, b)|;
  }

  lemma WithoutOne<S>(left: seq<S>, x: S, right: seq<S>)
    ensures multiset(left + [x] + right) - multiset{x} == multiset(left + right)
  {
    assert multiset(left + [x] + right) == multiset(left) + multiset{x} + multiset(right);
    assert multiset(left + right) == multiset(left) + multiset(right);
  }

  /** Taking one occurrence out of a permutation of `[x] + rest`. */
  lemma TakeOut<S(!new)>(x: S, rest: seq<S>, b: seq<S>) returns (left: seq<S>, right: seq<S>)
    requires multiset([x] + rest) == multiset(b)
    ensures b == left + [x] + right && multiset(rest) == multiset(left + right)
  {
    assert ([x] + rest)[0] == x;
    SameElements([x] + rest, b, x);
    var j :| 0 <= j < |b| && b[j] == x;
    left, right := b[..j], b[j + 1..];
    assert b == left + [x] + right;
    WithoutBoth(x, rest, left, right);
  }

  lemma WithoutBoth<S>(x: S, rest: seq<S>, left: seq<S>, right: seq<S>)
    requires multiset([x] + rest) == multiset(left + [x] + right)
    ensures multiset(rest) == multiset(left + right)
  {
    WithoutOne(left, x, right);
    WithoutOne([], x, rest);
    assert [] + [x] + rest == [x] + rest && [] + rest == rest;
  }

  /** A function of the elements maps permutations to permutations. */
  lemma MapPermutation<S(!new), T>(f: S -> T, a: seq<S>, b: seq<S>)
    requires multiset(a) == multiset(b)
    ensures multiset(Map(f, a)) == multiset(Map(f, b))
  {
    var id := (x: S) => x;
    assert Map(id, a) == a && Map(id, b) == b;
    MapFactors(id, f, a, b);
  }

  /** Some element of `b` has the image of `x`, and what is left of both sides still agrees. */
  lemma SplitImage<S, T(!new)>(f: S -> T, x: S, rest: seq<S>, b: seq<S>) returns (y: S, left: seq<S>, right: seq<S>)
    requires multiset(Map(f, [x] + rest)) == multiset(Map(f, b))
    ensures b == left + [y] + right && f(y) == f(x)
    ensures multiset(Map(f, rest)) == multiset(Map(f, left + right))
  {
    assert Map(f, [x] + rest) == [f(x)] + Map(f, rest);
    var l, r := TakeOut(f(x), Map(f, rest), Map(f, b));
    MappedParts(f, b, l, f(x), r);
    y, left, right := b[|l|], b[..|l|], b[|l| + 1..];
    assert b == left + [y] + right;
  }

  lemma MappedParts<S, T>(f: S -> T, b: seq<S>, l: seq<T>, v: T, r: seq<T>)
    requires Map(f, b) == l + [v] + r
    ensures |l| < |b| && f(b[|l|]) == v && Map(f, b[..|l|] + b[|l| + 1..]) == l + r
  {
    assert |b| == |l| + 1 + |r| && (l + [v] + r)[|l|] == v;
    var rest := b[..|l|] + b[|l| + 1..];
    forall i | 0 <= i < |rest| ensures Map(f, rest)[i] == (l + r)[i] {
      if i < |l| {
        assert Map(f, b)[i] == l[i];
      } else {
        assert Map(f, b)[i + 1] == r[i - |l|];
      }
    }
  }

  /** If `g` tells apart no more than `f` does, `f`'s values being permuted makes `g`'s values so. */
  lemma {:induction false} MapFactors<S(!new), T(!new), U>(f: S -> T, g: S -> U, a: seq<S>, b: seq<S>)
    requires multiset(Map(f, a)) == multiset(Map(f, b))
    requires forall x, y :: x in a && y in b && f(x) == f(y) ==> g(x) == g(y)
    ensures multiset(Map(g, a)) == multiset(Map(g, b))
    decreases |a|
  {
    hide Map;
    if a == [] {
      assert |Map(f, b)| == |multiset(Map(f, b))| == |multiset(Map(f, a))| == 0;
      assert Map(g, a) == Map(g, b) == [];
    } else {
      var x, rest := a[0], a[1..];
      assert a == [x] + rest;
      var y, left, right := SplitImage(f, x, rest, b);
      assert forall u :: u in rest ==> u in a;
      assert forall v :: v in left + right ==> v in b;
      MapFactors(f, g, rest, left + right);
      assert x in a && y in b;
      MapOther(g, x, y, rest, left, right);
    }
  }

  lemma MapOther<S, T>(f: S -> T, x: S, y: S, rest: seq<S>, left: seq<S>, right: seq<S>)
    requires multiset(Map(f, rest)) == multiset(Map(f, left + right)) && f(x) == f(y)
    ensures multiset(Map(f, [x] + rest)) == multiset(Map(f, left + [y] + right))
  {
    assert Map(f, [x] + rest) == [f(x)] + Map(f, rest);
    assert Map(f, left + right) == Map(f, left) + Map(f, right);
    MapConcat(f, left, y, right);
  }

  // ---- Sorting ----

  ghost predicate TotalOrder<T(!new)>(le: (T, T) -> bool) {
    && (forall x, y :: le(x, y) || le(y, x))
    && (forall x, y, z :: le(x, y) && le(y, z) ==> le(x, z))
  }

  ghost predicate Sorted<T(!new)>(s: seq<T>, le: (T, T) -> bool) {
    forall i, j :: 0 <= i < j < |s| ==> le(s[i], s[j])
  }

  function Insert<T>(x: T, s: seq<T>, le: (T, T) -> bool): (r: seq<T>)
    ensures multiset(r) == multiset(s) + multiset{x}
  {
    if s == [] || le(x, s[0]) then [x] + s
    else
      assert s == [s[0]] + s[1..];
      [s[0]] + Insert(x, s[1..], le)
  }

  /** A stable sort, as `slice::sort` and `slice::sort_by`. */
  function Sort<T>(s: seq<T>, le: (T, T) -> bool): (r: seq<T>)
    ensures multiset(r) == multiset(s) && |r| == |s|
  {
    if s == [] then []
    else
      assert s == [s[0]] + s[1..];
      var r := Insert(s[0], Sort(s[1..], le), le);
      assert |r| == |multiset(r)| && |s| == |multiset(s)|;
      r
  }

  lemma {:induction false} InsertSorted<T(!new)>(x: T, s: seq<T>, le: (T, T) -> bool)
    requires TotalOrder(le) && Sorted(s, le)
    ensures Sorted(Insert(x, s, le), le)
  {
    if s != [] && !le(x, s[0]) {
      InsertSorted(x, s[1..], le);
      var r := Insert(x, s[1..], le);
      forall y | y in r ensures le(s[0], y) {
        assert y in multiset(r);
        if y != x {
          assert y in multiset(s[1..]);
        }
      }
    }
  }

  lemma {:induction false} SortSorted<T(!new)>(s: seq<T>, le: (T, T) -> bool)
    requires TotalOrder(le)
    ensures Sorted(Sort(s, le), le)
  {
    if s != [] {
      SortSorted(s[1..], le);
      InsertSorted(s[0], Sort(s[1..], le), le);
    }
  }

  /** Elements that the order cannot tell apart are equal. */
  ghost predicate Antisymmetric<T(!new)>(s: seq<T>, le: (T, T) -> bool) {
    forall x, y :: x in s && y in s && le(x, y) && le(y, x) ==> x == y
  }

  lemma FirstOfSorted<T(!new)>(s: seq<T>, le: (T, T) -> bool, x: T)
    requires TotalOrder(le) && Sorted(s, le) && x in s
    ensures le(s[0], x)
  {
  }

  lemma SameFirst<T(!new)>(a: seq<T>, b: seq<T>, le: (T, T) -> bool)
    requires TotalOrder(le) && Sorted(a, le) && Sorted(b, le) && Antisymmetric(a, le)
    requires multiset(a) == multiset(b) && a != [] && b != []
    ensures a[0] == b[0]
  {
    SameElements(a, b, a[0]);
    SameElements(a, b, b[0]);
    FirstOfSorted(a, le, b[0]);
    FirstOfSorted(b, le, a[0]);
  }

  lemma SameRest<T(!new)>(a: seq<T>, b: seq<T>)
    requires multiset(a) == multiset(b) && a != [] && b != [] && a[0] == b[0]
    ensures multiset(a[1..]) == multiset(b[1..])
  {
    assert a == [a[0]] + a[1..] && b == [b[0]] + b[1..];
    assert multiset(a[1..]) == multiset(a) - multiset{a[0]};
    assert multiset(b[1..]) == multiset(b) - multiset{b[0]};
  }

  lemma TailOrdered<T(!new)>(a: seq<T>, le: (T, T) -> bool)
    requires a != [] && Sorted(a, le)
    ensures Sorted(a[1..], le) && (Antisymmetric(a, le) ==> Antisymmetric(a[1..], le))
  {
    assert forall x :: x in a[1..] ==> x in a;
  }

  /** A sequence has only one sorted permutation when its elements are told apart by the order. */
  lemma {:induction false} SortedUnique<T(!new)>(a: seq<T>, b: seq<T>, le: (T, T) -> bool)
    requires TotalOrder(le) && Sorted(a, le) && Sorted(b, le)
    requires multiset(a) == multiset(b) && Antisymmetric(a, le)
    ensures a == b
    decreases |a|
  {
    hide *;
    assert |a| == |multiset(a)| && |b| == |multiset(b)|;
    if a != [] {
      SameFirst(a, b, le);
      SameRest(a, b);
      TailOrdered(a, le);
      TailOrdered(b, le);
      SortedUnique(a[1..], b[1..], le);
      assert a == [a[0]] + a[1..] && b == [b[0]] + b[1..];
    }
  }

  /** Sorting forgets the order it started from. */
  lemma SortForgetsOrder<T(!new)>(a: seq<T>, b: seq<T>, le: (T, T) -> bool)
    requires TotalOrder(le) && multiset(a) == multiset(b) && Antisymmetric(a, le)
    ensures Sort(a, le) == Sort(b, le)
  {
    SortSorted(a, le);
    SortSorted(b, le);
    forall x, y | x in Sort(a, le) && y in Sort(a, le) && le(x, y) && le(y, x) ensures x == y {
      SameElements(Sort(a, le), a, x);
      SameElements(Sort(a, le), a, y);
    }
    SortedUnique(Sort(a, le), Sort(b, le), le);
  }

  /** Sorting a sorted sequence changes nothing, whatever the order can tell apart. */
  lemma {:induction false} SortOfSorted<T(!new)>(s: seq<T>, le: (T, T) -> bool)
    requires TotalOrder(le) && Sorted(s, le)
    ensures Sort(s, le) == s
  {
    if s != [] {
      SortOfSorted(s[1..], le);
      if |s| > 1 {
        assert le(s[0], s[1]);
      }
    }
  }

  // ---- Strings ----

  /** The order of Rust strings: by bytes, which for UTF-8 is by characters. */
  predicate StringLe(a: string, b: string) {
    a == "" || (b != "" && (a[0] < b[0] || (a[0] == b[0] && StringLe(a[1..], b[1..]))))
  }

  /** A proper prefix comes first, and so does the smaller character where two texts first differ. */
  ghost predicate ComesBefore(a: string, b: string) {
    exists k: nat :: DiffersAt(a, b, k) && (k == |a| || (k < |b| && a[k] < b[k]))
  }

  ghost predicate DiffersAt(a: string, b: string, k: nat) {
    && k <= |a| && k <= |b| && a[..k] == b[..k] && a != b
    && (k < |a| && k < |b| ==> a[k] != b[k])
  }

  /** Of two neighbours that differ, the first comes before the second. */
  ghost predicate Ascending(s: seq<string>) {
    forall i :: 0 < i < |s| ==> s[i - 1] == s[i] || ComesBefore(s[i - 1], s[i])
  }

  lemma DiffersLater(a: string, b: string, k: nat)
    requires a != "" && b != "" && a[0] == b[0]
    ensures DiffersAt(a[1..], b[1..], k) <==> DiffersAt(a, b, k + 1)
  {
    assert a == [a[0]] + a[1..] && b == [b[0]] + b[1..];
    if k <= |a| - 1 && k <= |b| - 1 {
      assert a[..k + 1] == [a[0]] + a[1..][..k] && b[..k + 1] == [b[0]] + b[1..][..k];
      assert a[..k + 1][1..] == a[1..][..k] && b[..k + 1][1..] == b[1..][..k];
    }
  }

  lemma SameBefore(a: string, b: string, k: nat)
    requires DiffersAt(a, b, k) && k > 0
    ensures a != "" && b != "" && a[0] == b[0]
  {
    assert a[..k][0] == a[0] && b[..k][0] == b[0];
  }

  lemma {:induction false} StringLeIff(a: string, b: string)
    ensures StringLe(a, b) <==> a == b || ComesBefore(a, b)
    decreases |a|
  {
    if a == "" || b == "" || a[0] != b[0] {
      hide ComesBefore;
      ApartAtOnce(a, b);
    } else {
      hide ComesBefore;
      StringLeIff(a[1..], b[1..]);
      assert a == [a[0]] + a[1..] && b == [b[0]] + b[1..];
      BeforeLater(a, b);
    }
  }

  lemma ApartAtOnce(a: string, b: string)
    requires a == "" || b == "" || a[0] != b[0]
    ensures ComesBefore(a, b) <==> if a == "" || b == "" then a == "" && b != "" else a[0] < b[0]
  {
    assert a != b ==> DiffersAt(a, b, 0);
    assert a[..0] == b[..0] == "";
    forall k: nat | DiffersAt(a, b, k) ensures k == 0 {
      if k > 0 {
        SameBefore(a, b, k);
      }
    }
  }

  lemma BeforeLater(a: string, b: string)
    requires a != "" && b != "" && a[0] == b[0]
    ensures ComesBefore(a, b) <==> ComesBefore(a[1..], b[1..])
  {
    if ComesBefore(a[1..], b[1..]) {
      var k: nat :| DiffersAt(a[1..], b[1..], k) && (k == |a[1..]| || (k < |b[1..]| && a[1..][k] < b[1..][k]));
      DiffersLater(a, b, k);
    }
    if ComesBefore(a, b) {
      var k: nat :| DiffersAt(a, b, k) && (k == |a| || (k < |b| && a[k] < b[k]));
      DiffersLater(a, b, k - 1);
    }
  }

  lemma SortedAscends(s: seq<string>)
    requires Sorted(s, StringLe)
    ensures Ascending(s)
  {
    hide StringLe, ComesBefore;
    forall i | 0 < i < |s| ensures s[i - 1] == s[i] || ComesBefore(s[i - 1], s[i]) {
      StringLeIff(s[i - 1], s[i]);
    }
  }

  lemma {:induction false} StringLeTotal(a: string, b: string)
    ensures StringLe(a, b) || StringLe(b, a)
    ensures StringLe(a, b) && StringLe(b, a) ==> a == b
  {
    if a != "" && b != "" {
      StringLeTotal(a[1..], b[1..]);
      assert a == [a[0]] + a[1..] && b == [b[0]] + b[1..];
    }
  }

  lemma {:induction false} StringLeTransitive(a: string, b: string, c: string)
    requires StringLe(a, b) && StringLe(b, c)
    ensures StringLe(a, c)
  {
    if a != "" && a[0] == b[0] == c[0] {
      StringLeTransitive(a[1..], b[1..], c[1..]);
    }
  }

  lemma StringOrder()
    ensures TotalOrder(StringLe)
    ensures forall s: seq<string> :: Antisymmetric(s, StringLe)
  {
    forall x, y ensures StringLe(x, y) || StringLe(y, x) {
      StringLeTotal(x, y);
    }
    forall x, y | StringLe(x, y) && StringLe(y, x) ensures x == y {
      StringLeTotal(x, y);
    }
    forall x, y, z | StringLe(x, y) && StringLe(y, z) ensures StringLe(x, z) {
      StringLeTransitive(x, y, z);
    }
  }
}
