/** Sums and bags over sequences, and that they do not depend on the order of the elements. */
module Folds {

  function Sum<T>(f: T -> int, s: seq<T>): int {
    if s == [] then 0 else Sum(f, s[..|s| - 1]) + f(s[|s| - 1])
  }

  function Map<T, K>(f: T -> K, s: seq<T>): (r: seq<K>)
    ensures |r| == |s| && forall i :: 0 <= i < |s| ==> r[i] == f(s[i])
  {
    seq(|s|, i requires 0 <= i < |s| => f(s[i]))
  }

  /** The values of `f` on `s`, with multiplicity. */
  ghost function Bag<T, K>(f: T -> K, s: seq<T>): multiset<K> {
    multiset(Map(f, s))
  }

  lemma {:induction false} SumConcat<T>(f: T -> int, s: seq<T>, t: seq<T>)
    ensures Sum(f, s + t) == Sum(f, s) + Sum(f, t)
  {
    if t == [] {
      assert s + t == s;
    } else {
      var n := |t| - 1;
      assert (s + t)[..|s| + n] == s + t[..n];
      SumConcat(f, s, t[..n]);
    }
  }

  lemma BagConcat<T, K>(f: T -> K, s: seq<T>, t: seq<T>)
    ensures Bag(f, s + t) == Bag(f, s) + Bag(f, t)
  {
    assert Map(f, s + t) == Map(f, s) + Map(f, t);
  }

  lemma BagSnoc<T, K>(f: T -> K, s: seq<T>, x: T)
    ensures Bag(f, s + [x]) == Bag(f, s) + multiset{f(x)}
  {
    assert Map(f, s + [x]) == Map(f, s) + [f(x)];
  }

  lemma SumOne<T>(f: T -> int, x: T)
    ensures Sum(f, [x]) == f(x)
  {
    assert [x][..0] == [];
  }

  /** Taking the element at `i` out of the middle. */
  lemma TakeOut<T>(t: seq<T>, i: nat)
    requires i < |t|
    ensures t == t[..i] + [t[i]] + t[i + 1..]
    ensures multiset(t) == multiset(t[..i] + t[i + 1..]) + multiset{t[i]}
  {
    assert t == t[..i] + [t[i]] + t[i + 1..];
  }

  /** The element of `t` that answers the last one of `s`. */
  lemma Partner<T>(s: seq<T>, t: seq<T>, n: nat) returns (i: nat)
    requires |s| == n + 1 && multiset(s) == multiset(t)
    ensures i < |t| && t[i] == s[n]
    ensures multiset(s[..n]) == multiset(t[..i] + t[i + 1..])
    ensures |t[..i] + t[i + 1..]| == n
  {
    assert s == s[..n] + [s[n]];
    assert s[n] in multiset(t);
    i :| 0 <= i < |t| && t[i] == s[n];
    TakeOut(t, i);
    assert multiset(s[..n]) == multiset(s) - multiset{s[n]};
    assert |t| == |multiset(t)| == |multiset(s)| == |s|;
  }

  lemma SumLast<T>(f: T -> int, s: seq<T>, n: nat)
    requires |s| == n + 1
    ensures Sum(f, s) == Sum(f, s[..n]) + f(s[n])
  {
  }

  lemma SumTakeOut<T>(f: T -> int, t: seq<T>, i: nat)
    requires i < |t|
    ensures Sum(f, t) == Sum(f, t[..i] + t[i + 1..]) + f(t[i])
  {
    hide Sum;
    TakeOut(t, i);
    SumConcat(f, t[..i], t[i + 1..]);
    SumConcat(f, t[..i], [t[i]]);
    SumConcat(f, t[..i] + [t[i]], t[i + 1..]);
    SumOne(f, t[i]);
  }

  lemma {:induction false} SumPermutation<T>(f: T -> int, s: seq<T>, t: seq<T>)
    requires multiset(s) == multiset(t)
    ensures Sum(f, s) == Sum(f, t)
  {
    if s == [] {
      assert |t| == |multiset(t)| == 0;
    } else {
      hide Sum;
      var n := |s| - 1;
      var i := Partner(s, t, n);
      SumPermutation(f, s[..n], t[..i] + t[i + 1..]);
      SumTakeOut(f, t, i);
      SumLast(f, s, n);
    }
  }

  lemma BagTakeOut<T, K>(f: T -> K, t: seq<T>, i: nat)
    requires i < |t|
    ensures Bag(f, t) == Bag(f, t[..i] + t[i + 1..]) + multiset{f(t[i])}
  {
    var u := t[..i] + t[i + 1..];
    assert Map(f, t) == Map(f, u)[..i] + [f(t[i])] + Map(f, u)[i..];
    assert Map(f, u) == Map(f, u)[..i] + Map(f, u)[i..];
  }

  lemma {:induction false} BagPermutation<T, K>(f: T -> K, s: seq<T>, t: seq<T>)
    requires multiset(s) == multiset(t)
    ensures Bag(f, s) == Bag(f, t)
  {
    if s == [] {
      assert |t| == |multiset(t)| == 0;
    } else {
      hide Bag;
      var n := |s| - 1;
      var i := Partner(s, t, n);
      BagPermutation(f, s[..n], t[..i] + t[i + 1..]);
      BagTakeOut(f, t, i);
      BagSnoc(f, s[..n], s[n]);
      assert s == s[..n] + [s[n]];
    }
  }

  /** Pointwise larger sequences have larger sums. */
  lemma {:induction false} SumPointwise<T>(f: T -> int, s: seq<T>, t: seq<T>)
    requires |s| == |t| && forall i :: 0 <= i < |s| ==> f(s[i]) <= f(t[i])
    ensures Sum(f, s) <= Sum(f, t)
  {
    if s != [] {
      SumPointwise(f, s[..|s| - 1], t[..|t| - 1]);
    }
  }
}
