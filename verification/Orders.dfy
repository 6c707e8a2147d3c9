/** Options, total orders, stable sorting, and the arbitrary iteration order of hash collections. */
module Orders {

  datatype Option<+T> = None | Some(value: T)

  /** Repository paths as the source keys them: strings ordered by code point. */
  type Path = string

  ghost predicate TotalPreorder<T(!new)>(le: (T, T) -> bool) {
    && (forall x, y :: le(x, y) || le(y, x))
    && (forall x, y, z :: le(x, y) && le(y, z) ==> le(x, z))
  }

  ghost predicate Sorted<T>(s: seq<T>, le: (T, T) -> bool) {
    forall i, j :: 0 <= i < j < |s| ==> le(s[i], s[j])
  }

  /** Elements of s that compare equal both ways are the same element. */
  ghost predicate AntisymmetricOn<T>(s: seq<T>, le: (T, T) -> bool) {
    forall x, y :: x in s && y in s && le(x, y) && le(y, x) ==> x == y
  }

  ghost predicate Distinct<T>(s: seq<T>) {
    forall i, j :: 0 <= i < j < |s| ==> s[i] != s[j]
  }

  function Elements<T>(s: seq<T>): set<T> {
    set x | x in s
  }

  function Insert<T>(x: T, s: seq<T>, le: (T, T) -> bool): seq<T> {
    if s == [] then [x]
    else if le(x, s[0]) then [x] + s
    else [s[0]] + Insert(x, s[1..], le)
  }

  /** Stable sort, the contract of the standard library's `sort_by`. */
  function Sort<T>(s: seq<T>, le: (T, T) -> bool): seq<T> {
    if s == [] then [] else Insert(s[0], Sort(s[1..], le), le)
  }

  lemma {:induction false} InsertPermutes<T>(x: T, s: seq<T>, le: (T, T) -> bool)
    ensures multiset(Insert(x, s, le)) == multiset{x} + multiset(s)
  {
    if s != [] {
      assert s == [s[0]] + s[1..];
      if !le(x, s[0]) {
        InsertPermutes(x, s[1..], le);
      }
    }
  }

  lemma {:induction false} InsertSorted<T(!new)>(x: T, s: seq<T>, le: (T, T) -> bool)
    requires TotalPreorder(le) && Sorted(s, le)
    ensures Sorted(Insert(x, s, le), le)
  {
    if s != [] && !le(x, s[0]) {
      var rest := Insert(x, s[1..], le);
      InsertSorted(x, s[1..], le);
      InsertPermutes(x, s[1..], le);
      forall y | y in rest
        ensures le(s[0], y)
      {
        assert y in multiset(rest);
        assert y == x || y in s[1..];
      }
    }
  }

  lemma {:induction false} SortPermutes<T>(s: seq<T>, le: (T, T) -> bool)
    ensures multiset(Sort(s, le)) == multiset(s)
    ensures |Sort(s, le)| == |s|
    ensures forall x :: x in Sort(s, le) <==> x in s
  {
    if s != [] {
      SortPermutes(s[1..], le);
      InsertPermutes(s[0], Sort(s[1..], le), le);
      assert s == [s[0]] + s[1..];
    }
    assert |multiset(Sort(s, le))| == |multiset(s)|;
    forall x
      ensures x in Sort(s, le) <==> x in s
    {
      assert x in Sort(s, le) <==> x in multiset(Sort(s, le));
      assert x in s <==> x in multiset(s);
    }
  }

  lemma {:induction false} SortSorted<T(!new)>(s: seq<T>, le: (T, T) -> bool)
    requires TotalPreorder(le)
    ensures Sorted(Sort(s, le), le)
  {
    if s != [] {
      SortSorted(s[1..], le);
      InsertSorted(s[0], Sort(s[1..], le), le);
    }
  }

  lemma {:induction false} InsertStable<T(!new)>(x: T, s: seq<T>, le: (T, T) -> bool, finer: (T, T) -> bool)
    requires TotalPreorder(le) && Sorted(s, le) && Sorted(s, finer)
    requires forall a, b :: le(a, b) && !le(b, a) ==> finer(a, b)
    requires forall y :: y in s && le(x, y) && le(y, x) ==> finer(x, y)
    ensures Sorted(Insert(x, s, le), finer)
  {
    if s != [] {
      assert s == [s[0]] + s[1..];
      if le(x, s[0]) {
        forall y | y in s
          ensures finer(x, y)
        {
          var i :| 0 <= i < |s| && s[i] == y;
          assert le(s[0], y);
        }
      } else {
        InsertStable(x, s[1..], le, finer);
        InsertPermutes(x, s[1..], le);
        forall y | y in Insert(x, s[1..], le)
          ensures finer(s[0], y)
        {
          assert y in multiset(Insert(x, s[1..], le));
          assert y == x || y in s[1..];
        }
      }
    }
  }

  /** A stable sort also sorts by any finer order in which ties were in order before. */
  lemma {:induction false} SortStable<T(!new)>(s: seq<T>, le: (T, T) -> bool, finer: (T, T) -> bool)
    requires TotalPreorder(le) && forall a, b :: le(a, b) && !le(b, a) ==> finer(a, b)
    requires forall i, j :: 0 <= i < j < |s| && le(s[i], s[j]) && le(s[j], s[i]) ==> finer(s[i], s[j])
    ensures Sorted(Sort(s, le), finer)
  {
    if s != [] {
      SortStable(s[1..], le, finer);
      SortSorted(s[1..], le);
      SortPermutes(s[1..], le);
      forall y | y in Sort(s[1..], le) && le(s[0], y) && le(y, s[0])
        ensures finer(s[0], y)
      {
        var j :| 0 <= j < |s[1..]| && s[1..][j] == y;
        assert s[j + 1] == y;
      }
      InsertStable(s[0], Sort(s[1..], le), le, finer);
    }
  }

  /** A sorted arrangement is unique once ties are impossible. */
  lemma {:induction false} SortedUnique<T(!new)>(a: seq<T>, b: seq<T>, le: (T, T) -> bool)
    requires AntisymmetricOn(a, le)
    requires Sorted(a, le) && Sorted(b, le) && multiset(a) == multiset(b)
    ensures a == b
  {
    assert |multiset(a)| == |multiset(b)|;
    if a != [] {
      SameHead(a, b, le);
      assert a == [a[0]] + a[1..] && b == [b[0]] + b[1..];
      assert multiset(a[1..]) == multiset(a) - multiset{a[0]};
      assert multiset(b[1..]) == multiset(b) - multiset{b[0]};
      SortedUnique(a[1..], b[1..], le);
    }
  }

  lemma SameHead<T(!new)>(a: seq<T>, b: seq<T>, le: (T, T) -> bool)
    requires AntisymmetricOn(a, le) && Sorted(a, le) && Sorted(b, le)
    requires |a| > 0 && |b| > 0 && multiset(a) == multiset(b)
    ensures a[0] == b[0]
  {
    assert a[0] in multiset(b) && b[0] in multiset(a);
    var i :| 0 <= i < |b| && b[i] == a[0];
    var j :| 0 <= j < |a| && a[j] == b[0];
    if i > 0 && j > 0 {
      assert le(b[0], b[i]) && le(a[0], a[j]);
    }
  }

  /** Sorting erases the order in which the elements arrived. */
  lemma SortErasesOrder<T(!new)>(a: seq<T>, b: seq<T>, le: (T, T) -> bool)
    requires TotalPreorder(le) && AntisymmetricOn(a, le)
    requires multiset(a) == multiset(b)
    ensures Sort(a, le) == Sort(b, le)
  {
    SortPermutes(a, le);
    SortPermutes(b, le);
    SortSorted(a, le);
    SortSorted(b, le);
    SortedUnique(Sort(a, le), Sort(b, le), le);
  }

  /** What is strictly smaller stands before. */
  lemma SmallerIsEarlier<T(!new)>(s: seq<T>, le: (T, T) -> bool, i: nat, j: nat)
    requires TotalPreorder(le) && Sorted(s, le) && i < |s| && j < |s| && !le(s[j], s[i])
    ensures i < j
  {
    assert i != j;
  }

  // ---------- Strings ----------

  predicate PathLe(a: Path, b: Path) {
    if a == [] then true
    else if b == [] then false
    else if a[0] != b[0] then a[0] < b[0]
    else PathLe(a[1..], b[1..])
  }

  /** The order of a dictionary: a beginning comes first, otherwise the first character that differs decides. */
  lemma {:induction false} PathLeIsDictionary(a: Path, b: Path)
    ensures PathLe(a, b) <==> a <= b || exists i :: 0 <= i < |a| && i < |b| && a[..i] == b[..i] && a[i] < b[i]
  {
    if a != [] && b != [] {
      if a[0] == b[0] {
        PathLeIsDictionary(a[1..], b[1..]);
        assert a <= b <==> a[1..] <= b[1..] by {
          assert a == [a[0]] + a[1..] && b == [b[0]] + b[1..];
        }
        if i :| 0 <= i < |a| && i < |b| && a[..i] == b[..i] && a[i] < b[i] {
          assert a[..i][1..] == a[1..][..i - 1] && b[..i][1..] == b[1..][..i - 1];
          assert a[1..][i - 1] == a[i] && b[1..][i - 1] == b[i];
        }
        if i :| 0 <= i < |a[1..]| && i < |b[1..]| && a[1..][..i] == b[1..][..i] && a[1..][i] < b[1..][i] {
          assert a[..i + 1] == [a[0]] + a[1..][..i] && b[..i + 1] == [b[0]] + b[1..][..i];
        }
      } else if a[0] < b[0] {
        assert a[..0] == b[..0];
      } else {
        forall i | 0 <= i < |a| && i < |b| && a[..i] == b[..i]
          ensures i == 0
        {
          if i > 0 {
            SameBeginning(a, b, i);
          }
        }
      }
    }
  }

  lemma SameBeginning(a: Path, b: Path, n: nat)
    requires 0 < n <= |a| && n <= |b| && a[..n] == b[..n]
    ensures a[0] == b[0]
  {
    assert a[..n][0] == a[0] && b[..n][0] == b[0];
  }

  lemma {:induction false} PathLeTotal(a: Path, b: Path)
    ensures PathLe(a, b) || PathLe(b, a)
  {
    if a != [] && b != [] && a[0] == b[0] {
      PathLeTotal(a[1..], b[1..]);
    }
  }

  lemma {:induction false} PathLeTransitive(a: Path, b: Path, c: Path)
    requires PathLe(a, b) && PathLe(b, c)
    ensures PathLe(a, c)
  {
    if a != [] && b != [] && c != [] && a[0] == b[0] == c[0] {
      PathLeTransitive(a[1..], b[1..], c[1..]);
    }
  }

  lemma {:induction false} PathLeAntisymmetric(a: Path, b: Path)
    requires PathLe(a, b) && PathLe(b, a)
    ensures a == b
  {
    if a != [] && b != [] {
      PathLeAntisymmetric(a[1..], b[1..]);
      assert a == [a[0]] + a[1..] && b == [b[0]] + b[1..];
    }
  }

  lemma PathOrder()
    ensures TotalPreorder(PathLe)
    ensures forall a, b :: PathLe(a, b) && PathLe(b, a) ==> a == b
  {
    forall a, b
      ensures PathLe(a, b) || PathLe(b, a)
    {
      PathLeTotal(a, b);
    }
    forall a, b, c | PathLe(a, b) && PathLe(b, c)
      ensures PathLe(a, c)
    {
      PathLeTransitive(a, b, c);
    }
    forall a, b | PathLe(a, b) && PathLe(b, a)
      ensures a == b
    {
      PathLeAntisymmetric(a, b);
    }
  }

  lemma TakeOneMore<T>(s: seq<T>, k: nat)
    requires k < |s|
    ensures s[..k + 1] == s[..k] + [s[k]]
    ensures Elements(s[..k + 1]) == Elements(s[..k]) + {s[k]}
  {
  }

  lemma TakeAll<T>(s: seq<T>)
    ensures s[..|s|] == s
  {
  }

  // ---------- Hash collections ----------

  /** r lists every element of s exactly once, in some order. */
  ghost predicate Enumerates<T(!new)>(r: seq<T>, s: set<T>) {
    Distinct(r) && (forall x :: x in r <==> x in s)
  }

  lemma {:induction false} EnumerationSize<T>(r: seq<T>, s: set<T>)
    requires Distinct(r) && forall x :: x in r <==> x in s
    ensures |r| == |s|
  {
    if r == [] {
      assert s == {};
    } else {
      var rest := s - {r[0]};
      assert forall x :: x in r <==> x == r[0] || x in r[1..];
      EnumerationSize(r[1..], rest);
      assert s == rest + {r[0]};
    }
  }

  lemma {:induction false} DistinctFits<T>(r: seq<T>, s: set<T>)
    requires Distinct(r) && Elements(r) <= s
    ensures |r| <= |s|
  {
    if r != [] {
      assert r[0] in Elements(r);
      forall x | x in Elements(r[1..])
        ensures x in s - {r[0]}
      {
        assert x in Elements(r);
      }
      DistinctFits(r[1..], s - {r[0]});
    }
  }

  lemma {:induction false} EnumerationMultiset<T>(r: seq<T>, s: set<T>)
    requires Distinct(r) && forall x :: x in r <==> x in s
    ensures multiset(r) == multiset(s)
  {
    if r != [] {
      assert forall x :: x in r <==> x == r[0] || x in r[1..];
      assert r == [r[0]] + r[1..];
      EnumerationMultiset(r[1..], s - {r[0]});
      assert s == (s - {r[0]}) + {r[0]};
    }
  }

  /** Walk a hash set: the order is arbitrary. */
  method Iterate<T(!new, ==)>(s: set<T>) returns (r: seq<T>)
    ensures Enumerates(r, s)
  {
    r := [];
    var left := s;
    while left != {}
      invariant left <= s
      invariant Distinct(r)
      invariant forall x :: x in r <==> x in s && x !in left
      decreases left
    {
      var x :| x in left;
      r := r + [x];
      left := left - {x};
    }
  }

  /** Walk a hash set of paths and sort, as the source does before any order can matter. */
  method IterateSorted(s: set<Path>) returns (r: seq<Path>)
    ensures Enumerates(r, s) && Sorted(r, PathLe)
  {
    var raw := Iterate(s);
    r := Sort(raw, PathLe);
    PathOrder();
    SortPermutes(raw, PathLe);
    SortSorted(raw, PathLe);
    DistinctByMultiset(raw, r);
  }

  lemma DistinctByMultiset<T>(a: seq<T>, b: seq<T>)
    requires Distinct(a) && multiset(a) == multiset(b)
    ensures Distinct(b)
  {
    EnumerationMultiset(a, Elements(a));
    forall i, j | 0 <= i < j < |b|
      ensures b[i] != b[j]
    {
      RepeatCountsTwice(b, i, j);
    }
  }

  lemma RepeatCountsTwice<T>(b: seq<T>, i: nat, j: nat)
    requires i < j < |b|
    ensures b[i] == b[j] ==> multiset(b)[b[i]] >= 2
  {
    assert b == b[..i] + [b[i]] + b[i + 1..j] + [b[j]] + b[j + 1..];
  }

  /** Whatever order the hash set was walked in, the sorted listing is the same. */
  lemma SortedListingUnique(a: seq<Path>, b: seq<Path>, s: set<Path>)
    requires Enumerates(a, s) && Sorted(a, PathLe)
    requires Enumerates(b, s) && Sorted(b, PathLe)
    ensures a == b
  {
    PathOrder();
    EnumerationMultiset(a, s);
    EnumerationMultiset(b, s);
    assert AntisymmetricOn(a, PathLe);
    SortedUnique(a, b, PathLe);
  }
}
