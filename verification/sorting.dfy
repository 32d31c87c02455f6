/** Stable sorting and the order of strings, as the source takes them from its standard library. */
module Sorting {
  import opened Collections

  type Order<!T> = (T, T) -> bool

  ghost predicate TotalPreorder<T(!new)>(le: Order<T>) {
    && (forall a, b :: le(a, b) || le(b, a))
    && (forall a, b, c {:trigger le(a, b), le(b, c)} :: le(a, b) && le(b, c) ==> le(a, c))
  }

  predicate Sorted<T>(s: seq<T>, le: Order<T>) {
    forall i, j :: 0 <= i < j < |s| ==> le(s[i], s[j])
  }

  /** Elements of equal rank are equal. */
  predicate Ranked<T(==)>(s: seq<T>, le: Order<T>) {
    forall a <- s, b <- s :: le(a, b) && le(b, a) ==> a == b
  }

  function Insert<T>(x: T, s: seq<T>, le: Order<T>): (r: seq<T>)
    ensures multiset(r) == multiset(s) + multiset{x}
  {
    if s == [] then [x]
    else if le(x, s[0]) then [x] + s
    else
      var r := [s[0]] + Insert(x, s[1..], le);
      assert s == [s[0]] + s[1..];
      r
  }

  /** Elements of equal rank keep their order. */
  function Sort<T>(s: seq<T>, le: Order<T>): (r: seq<T>)
    ensures multiset(r) == multiset(s)
  {
    if s == [] then []
    else
      assert s == [s[0]] + s[1..];
      Insert(s[0], Sort(s[1..], le), le)
  }

  lemma MemberOfInsert<T>(x: T, s: seq<T>, le: Order<T>, y: T)
    requires y in Insert(x, s, le)
    ensures y == x || y in s
  {
    assert y in multiset(Insert(x, s, le));
  }

  lemma {:induction false} InsertSorted<T(!new)>(x: T, s: seq<T>, le: Order<T>)
    requires TotalPreorder(le) && Sorted(s, le)
    ensures Sorted(Insert(x, s, le), le)
  {
    if s != [] {
      if le(x, s[0]) {
        forall i | 0 <= i < |s| ensures le(x, s[i]) {
          assert i > 0 ==> le(s[0], s[i]);
        }
      } else {
        InsertSorted(x, s[1..], le);
        forall y | y in Insert(x, s[1..], le) ensures le(s[0], y) {
          MemberOfInsert(x, s[1..], le, y);
        }
      }
    }
  }

  lemma {:induction false} SortSorted<T(!new)>(s: seq<T>, le: Order<T>)
    requires TotalPreorder(le)
    ensures Sorted(Sort(s, le), le)
  {
    if s != [] {
      SortSorted(s[1..], le);
      InsertSorted(s[0], Sort(s[1..], le), le);
    }
  }

  lemma SameMembers<T>(s: seq<T>, t: seq<T>, x: T)
    requires multiset(s) == multiset(t) && x in s
    ensures x in t
  {
    assert x in multiset(s);
  }

  lemma {:induction false} SortedUnique<T(!new)>(s: seq<T>, t: seq<T>, le: Order<T>)
    requires Sorted(s, le) && Sorted(t, le) && Ranked(s, le)
    requires multiset(s) == multiset(t)
    ensures s == t
  {
    assert |multiset(s)| == |s| && |multiset(t)| == |t|;
    if s != [] {
      FirstsEqual(s, t, le);
      WithoutFirst(s);
      WithoutFirst(t);
      SortedUnique(s[1..], t[1..], le);
    }
  }

  lemma WithoutFirst<T>(s: seq<T>)
    requires s != []
    ensures s == [s[0]] + s[1..]
    ensures multiset(s[1..]) == multiset(s) - multiset{s[0]}
    ensures forall x <- s[1..] :: x in s
  {
    assert s == [s[0]] + s[1..];
  }

  lemma FirstsEqual<T(!new)>(s: seq<T>, t: seq<T>, le: Order<T>)
    requires Sorted(s, le) && Sorted(t, le) && Ranked(s, le)
    requires s != [] && t != [] && multiset(s) == multiset(t)
    ensures s[0] == t[0]
  {
    SameMembers(s, t, s[0]);
    SameMembers(t, s, t[0]);
    var i :| 0 <= i < |s| && s[i] == t[0];
    var j :| 0 <= j < |t| && t[j] == s[0];
    if i > 0 && j > 0 {
      assert le(s[0], s[i]) && le(t[0], t[j]);
    }
  }

  /** The sorted sequence does not depend on the order of its input. */
  lemma SortOrderIndependent<T(!new)>(s: seq<T>, t: seq<T>, le: Order<T>)
    requires TotalPreorder(le) && Ranked(s, le) && multiset(s) == multiset(t)
    ensures Sort(s, le) == Sort(t, le)
  {
    SortSorted(s, le);
    SortSorted(t, le);
    var a := Sort(s, le);
    forall x | x in a ensures x in s {
      SameMembers(a, s, x);
    }
    SortedUnique(a, Sort(t, le), le);
  }

  /** Sorting again changes nothing. */
  lemma {:induction false} SortedUnchanged<T>(s: seq<T>, le: Order<T>)
    requires Sorted(s, le)
    ensures Sort(s, le) == s
  {
    if s != [] {
      SortedUnchanged(s[1..], le);
    }
  }

  lemma CountTwice<T>(s: seq<T>, i: nat, j: nat)
    requires i < j < |s| && s[i] == s[j]
    ensures multiset(s)[s[i]] >= 2
  {
    assert s == s[..j] + [s[j]] + s[j + 1..];
    assert s[i] in s[..j];
  }

  lemma {:induction false} CountOnce<T>(s: seq<T>, x: T)
    requires Distinct(s)
    ensures multiset(s)[x] <= 1
  {
    if s != [] {
      CountOnce(s[1..], x);
      assert s == [s[0]] + s[1..];
      assert s[0] !in s[1..];
    }
  }

  lemma DistinctReordered<T>(s: seq<T>, t: seq<T>)
    requires Distinct(s) && multiset(s) == multiset(t)
    ensures Distinct(t)
  {
    forall i, j | 0 <= i < j < |t| ensures t[i] != t[j] {
      if t[i] == t[j] {
        CountTwice(t, i, j);
        CountOnce(s, t[i]);
      }
    }
  }

  function Map<T, U>(f: T -> U, s: seq<T>): (r: seq<U>)
    ensures |r| == |s| && forall i :: 0 <= i < |s| ==> r[i] == f(s[i])
  {
    if s == [] then [] else [f(s[0])] + Map(f, s[1..])
  }

  ghost predicate Respects<T(!new), U>(f: T -> U, le: Order<T>, le': Order<U>, s: seq<T>) {
    forall a <- s, b <- s :: le(a, b) == le'(f(a), f(b))
  }

  lemma {:induction false} MapInsert<T(!new), U>(f: T -> U, x: T, s: seq<T>, le: Order<T>, le': Order<U>)
    requires Respects(f, le, le', [x] + s)
    ensures Map(f, Insert(x, s, le)) == Insert(f(x), Map(f, s), le')
  {
    if s != [] {
      assert x in [x] + s && s[0] in [x] + s;
      if le(x, s[0]) {
        assert ([x] + s)[1..] == s;
      } else {
        assert forall y <- [x] + s[1..] :: y in [x] + s;
        MapInsert(f, x, s[1..], le, le');
        assert ([s[0]] + Insert(x, s[1..], le))[1..] == Insert(x, s[1..], le);
      }
    }
  }

  /** A change that keeps the order of the elements commutes with sorting. */
  lemma {:induction false} MapSort<T(!new), U>(f: T -> U, s: seq<T>, le: Order<T>, le': Order<U>)
    requires Respects(f, le, le', s)
    ensures Map(f, Sort(s, le)) == Sort(Map(f, s), le')
  {
    if s != [] {
      var rest := Sort(s[1..], le);
      forall y | y in [s[0]] + rest ensures y in s {
        if y in rest {
          SameMembers(rest, s[1..], y);
        }
      }
      MapSort(f, s[1..], le, le');
      MapInsert(f, s[0], rest, le, le');
    }
  }

  lemma MapAppend<T, U>(f: T -> U, a: seq<T>, b: seq<T>)
    ensures Map(f, a + b) == Map(f, a) + Map(f, b)
  {
  }

  /** Where an element stands does not matter to the multiset of images. */
  lemma MapMoves<T, U>(f: T -> U, a: seq<T>, x: T, b: seq<T>)
    ensures multiset(Map(f, a + ([x] + b))) == multiset(Map(f, [x] + (a + b)))
  {
    MapAppend(f, a, [x] + b);
    MapAppend(f, [x], b);
    MapAppend(f, [x], a + b);
    MapAppend(f, a, b);
  }

  lemma WithoutAt<T>(t: seq<T>, i: nat)
    requires i < |t|
    ensures t == t[..i] + ([t[i]] + t[i + 1..])
    ensures multiset(t[..i] + t[i + 1..]) == multiset(t) - multiset{t[i]}
  {
    assert t == t[..i] + ([t[i]] + t[i + 1..]);
  }

  lemma {:induction false} MapMultiset<T, U>(f: T -> U, s: seq<T>, t: seq<T>)
    requires multiset(s) == multiset(t)
    ensures multiset(Map(f, s)) == multiset(Map(f, t))
  {
    assert |multiset(s)| == |s| && |multiset(t)| == |t|;
    if s != [] {
      SameMembers(s, t, s[0]);
      var i :| 0 <= i < |t| && t[i] == s[0];
      var t' := t[..i] + t[i + 1..];
      WithoutAt(t, i);
      WithoutFirst(s);
      MapMultiset(f, s[1..], t');
      MapMoves(f, t[..i], s[0], t[i + 1..]);
      MapAppend(f, [s[0]], s[1..]);
      MapAppend(f, [s[0]], t');
    }
  }

  // ---------------------------------------------------------------- strings

  /** `a` does not come after `b` in lexicographic order. */
  predicate NotAfter(a: string, b: string) {
    a == [] || (b != [] && (a[0] < b[0] || (a[0] == b[0] && NotAfter(a[1..], b[1..]))))
  }

  lemma {:induction false} NotAfterTotal(a: string, b: string)
    ensures NotAfter(a, b) || NotAfter(b, a)
    ensures NotAfter(a, b) && NotAfter(b, a) ==> a == b
  {
    if a != [] && b != [] {
      NotAfterTotal(a[1..], b[1..]);
      assert a == [a[0]] + a[1..] && b == [b[0]] + b[1..];
    }
  }

  lemma {:induction false} NotAfterTransitive(a: string, b: string, c: string)
    requires NotAfter(a, b) && NotAfter(b, c)
    ensures NotAfter(a, c)
  {
    if a != [] && a[0] == b[0] == c[0] {
      NotAfterTransitive(a[1..], b[1..], c[1..]);
    }
  }

  lemma StringOrder()
    ensures TotalPreorder(NotAfter)
    ensures forall a, b :: NotAfter(a, b) && NotAfter(b, a) ==> a == b
  {
    forall a, b ensures (NotAfter(a, b) || NotAfter(b, a)) && (NotAfter(a, b) && NotAfter(b, a) ==> a == b) {
      NotAfterTotal(a, b);
    }
    forall a, b, c | NotAfter(a, b) && NotAfter(b, c) ensures NotAfter(a, c) {
      NotAfterTransitive(a, b, c);
    }
  }
}
