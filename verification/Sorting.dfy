/** Sorting, as far as the models rely on it: sort.SliceStable is the function `StableSort`;
    sort.Slice, which promises no order among equal elements, is the method `SortSlice`, whose
    contract does not promise one either. */
module Sorting {

  ghost predicate TotalPreorder<T(!new)>(le: (T, T) -> bool) {
    && (forall a, b :: le(a, b) || le(b, a))
    && (forall a, b, c :: le(a, b) && le(b, c) ==> le(a, c))
  }

  ghost predicate Sorted<T>(le: (T, T) -> bool, s: seq<T>) {
    forall i, j :: 0 <= i < j < |s| ==> le(s[i], s[j])
  }

  function Insert<T>(le: (T, T) -> bool, x: T, s: seq<T>): (r: seq<T>)
    ensures |r| == |s| + 1
  {
    if s == [] || le(x, s[0]) then [x] + s else [s[0]] + Insert(le, x, s[1..])
  }

  function StableSort<T>(le: (T, T) -> bool, s: seq<T>): (r: seq<T>)
    ensures |r| == |s|
  {
    if s == [] then [] else Insert(le, s[0], StableSort(le, s[1..]))
  }

  lemma {:induction false} InsertMultiset<T>(le: (T, T) -> bool, x: T, s: seq<T>)
    ensures multiset(Insert(le, x, s)) == multiset{x} + multiset(s)
  {
    if !(s == [] || le(x, s[0])) {
      InsertMultiset(le, x, s[1..]);
      assert s == [s[0]] + s[1..];
    }
  }

  lemma {:induction false} SortMultiset<T>(le: (T, T) -> bool, s: seq<T>)
    ensures multiset(StableSort(le, s)) == multiset(s)
  {
    if s != [] {
      SortMultiset(le, s[1..]);
      InsertMultiset(le, s[0], StableSort(le, s[1..]));
      assert s == [s[0]] + s[1..];
    }
  }

  lemma {:induction false} InsertSorted<T(!new)>(le: (T, T) -> bool, x: T, s: seq<T>)
    requires TotalPreorder(le) && Sorted(le, s)
    ensures Sorted(le, Insert(le, x, s))
  {
    if s == [] {
    } else if le(x, s[0]) {
      forall j | 0 <= j < |s| ensures le(x, s[j]) {
        assert j == 0 || le(s[0], s[j]);
      }
    } else {
      InsertSorted(le, x, s[1..]);
      var r := Insert(le, x, s[1..]);
      InsertMultiset(le, x, s[1..]);
      forall j | 0 <= j < |r| ensures le(s[0], r[j]) {
        assert r[j] in multiset(r);
        if r[j] != x {
          assert r[j] in s[1..];
        }
      }
    }
  }

  lemma {:induction false} SortSorted<T(!new)>(le: (T, T) -> bool, s: seq<T>)
    requires TotalPreorder(le)
    ensures Sorted(le, StableSort(le, s))
  {
    if s != [] {
      SortSorted(le, s[1..]);
      InsertSorted(le, s[0], StableSort(le, s[1..]));
    }
  }

  lemma SameElements<T>(s: seq<T>, t: seq<T>)
    requires multiset(s) == multiset(t)
    ensures |s| == |t|
    ensures forall x :: x in s <==> x in t
  {
    assert |s| == |multiset(s)| == |multiset(t)| == |t|;
    forall x ensures x in s <==> x in t {
      assert x in s <==> x in multiset(s);
      assert x in t <==> x in multiset(t);
    }
  }

  /** No two different elements of `s` tie. */
  ghost predicate NoTies<T>(le: (T, T) -> bool, s: seq<T>) {
    forall x, y :: x in s && y in s && le(x, y) && le(y, x) ==> x == y
  }

  lemma SmallestFirst<T>(le: (T, T) -> bool, s: seq<T>, x: T)
    requires Sorted(le, s) && x in s
    ensures s[0] == x || le(s[0], x)
  {
    var i :| 0 <= i < |s| && s[i] == x;
  }

  lemma TailOf<T>(le: (T, T) -> bool, s: seq<T>)
    requires s != [] && Sorted(le, s) && NoTies(le, s)
    ensures Sorted(le, s[1..]) && NoTies(le, s[1..])
    ensures multiset(s) == multiset{s[0]} + multiset(s[1..])
  {
    assert s == [s[0]] + s[1..];
  }

  lemma SameTies<T>(le: (T, T) -> bool, s: seq<T>, t: seq<T>)
    requires multiset(s) == multiset(t) && NoTies(le, s)
    ensures NoTies(le, t)
  {
    SameElements(s, t);
  }

  /** Without ties there is only one sorted arrangement. */
  lemma {:induction false} SortedUnique<T(!new)>(le: (T, T) -> bool, s: seq<T>, t: seq<T>)
    requires Sorted(le, s) && Sorted(le, t)
    requires multiset(s) == multiset(t) && NoTies(le, s)
    ensures s == t
  {
    SameElements(s, t);
    if s != [] {
      assert s[0] == t[0] by {
        SmallestFirst(le, s, t[0]);
        SmallestFirst(le, t, s[0]);
      }
      SameTies(le, s, t);
      hide Sorted, NoTies;
      TailOf(le, s);
      TailOf(le, t);
      assert multiset(s[1..]) == multiset(s) - multiset{s[0]};
      SortedUnique(le, s[1..], t[1..]);
      assert s == [s[0]] + s[1..] && t == [t[0]] + t[1..];
    }
  }

  lemma SortUnique<T(!new)>(le: (T, T) -> bool, s: seq<T>, t: seq<T>)
    requires TotalPreorder(le) && multiset(s) == multiset(t) && NoTies(le, s)
    ensures StableSort(le, s) == StableSort(le, t)
  {
    SortSorted(le, s);
    SortSorted(le, t);
    SortMultiset(le, s);
    SortMultiset(le, t);
    SameElements(s, StableSort(le, s));
    SortedUnique(le, StableSort(le, s), StableSort(le, t));
  }

  /** A sorted sequence is left alone. */
  lemma {:induction false} SortOfSorted<T>(le: (T, T) -> bool, s: seq<T>)
    requires Sorted(le, s)
    ensures StableSort(le, s) == s
  {
    if s != [] {
      SortOfSorted(le, s[1..]);
      assert s == [s[0]] + s[1..];
    }
  }

  /** sort.Slice in place: some sorted arrangement of the same elements. */
  method SortSlice<T(!new)>(le: (T, T) -> bool, a: array<T>)
    requires TotalPreorder(le)
    modifies a
    ensures Sorted(le, a[..]) && multiset(a[..]) == multiset(old(a[..]))
  {
    var s := StableSort(le, a[..]);
    SortSorted(le, a[..]);
    SortMultiset(le, a[..]);
    forall i | 0 <= i < a.Length {
      a[i] := s[i];
    }
    assert a[..] == s;
  }
}
