/** The string operations of Go's `strings` package the models use, on ASCII text. */
module Text {
  import opened Sorting

  predicate IsSpace(c: char) {
    c == ' ' || c == '\t' || c == '\n' || c == '\r' || c == 11 as char || c == 12 as char
  }

  /** No white space anywhere. */
  predicate SpaceFree(s: string) {
    forall i :: 0 <= i < |s| ==> !IsSpace(s[i])
  }

  function TrimLeft(s: string): (t: string)
    ensures t == [] || !IsSpace(t[0])
    ensures |t| <= |s|
  {
    if s != [] && IsSpace(s[0]) then TrimLeft(s[1..]) else s
  }

  function TrimRight(s: string): (t: string)
    ensures t == [] || !IsSpace(t[|t| - 1])
    ensures |t| <= |s| && (t != [] ==> t[0] == s[0])
  {
    if s != [] && IsSpace(s[|s| - 1]) then TrimRight(s[..|s| - 1]) else s
  }

  /** strings.TrimSpace */
  function Trim(s: string): (t: string)
    ensures |t| <= |s|
    ensures t == [] || (!IsSpace(t[0]) && !IsSpace(t[|t| - 1]))
  {
    TrimRight(TrimLeft(s))
  }

  predicate Blank(s: string) {
    Trim(s) == ""
  }

  /** Neither end is white space. */
  predicate Trimmed(s: string) {
    s == [] || (!IsSpace(s[0]) && !IsSpace(s[|s| - 1]))
  }

  /** Trimming is the identity exactly on trimmed text and shortens any other. */
  lemma TrimFixpoint(s: string)
    ensures Trimmed(s) <==> Trim(s) == s
    ensures !Trimmed(s) ==> |Trim(s)| < |s|
  {
    if s != [] && IsSpace(s[0]) {
      assert TrimLeft(s) == TrimLeft(s[1..]);
    } else {
      assert TrimLeft(s) == s;
      if s != [] && IsSpace(s[|s| - 1]) {
        assert TrimRight(s) == TrimRight(s[..|s| - 1]);
      }
    }
  }

  lemma TrimIdempotent(s: string)
    ensures Trim(Trim(s)) == Trim(s)
  {
    TrimFixpoint(Trim(s));
  }

  lemma SpaceFreeTrimmed(s: string)
    requires SpaceFree(s)
    ensures Trim(s) == s
  {
    TrimFixpoint(s);
  }

  // ---------- case ----------

  function LowerChar(c: char): char {
    if 'A' <= c <= 'Z' then c - 'A' + 'a' else c
  }

  function UpperChar(c: char): char {
    if 'a' <= c <= 'z' then c - 'a' + 'A' else c
  }

  /** strings.ToLower */
  function ToLower(s: string): (t: string)
    ensures |t| == |s|
  {
    seq(|s|, i requires 0 <= i < |s| => LowerChar(s[i]))
  }

  /** strings.ToUpper */
  function ToUpper(s: string): (t: string)
    ensures |t| == |s|
  {
    seq(|s|, i requires 0 <= i < |s| => UpperChar(s[i]))
  }

  /** strings.EqualFold */
  predicate EqualFold(s: string, t: string) {
    ToLower(s) == ToLower(t)
  }

  lemma LowerCharFacts(c: char)
    ensures LowerChar(LowerChar(c)) == LowerChar(c)
    ensures IsSpace(LowerChar(c)) <==> IsSpace(c)
  {
  }

  lemma ToLowerIdempotent(s: string)
    ensures ToLower(ToLower(s)) == ToLower(s)
  {
    forall i | 0 <= i < |s| ensures LowerChar(LowerChar(s[i])) == LowerChar(s[i]) {
      LowerCharFacts(s[i]);
    }
  }

  lemma {:induction false} LowerTrimLeft(s: string)
    ensures ToLower(TrimLeft(s)) == TrimLeft(ToLower(s))
  {
    if s != [] {
      LowerCharFacts(s[0]);
      if IsSpace(s[0]) {
        assert ToLower(s)[1..] == ToLower(s[1..]);
        LowerTrimLeft(s[1..]);
      }
    }
  }

  lemma {:induction false} LowerTrimRight(s: string)
    ensures ToLower(TrimRight(s)) == TrimRight(ToLower(s))
  {
    if s != [] {
      var n := |s| - 1;
      LowerCharFacts(s[n]);
      if IsSpace(s[n]) {
        assert ToLower(s)[..n] == ToLower(s[..n]);
        LowerTrimRight(s[..n]);
      }
    }
  }

  /** Lower-casing and trimming commute. */
  lemma LowerTrim(s: string)
    ensures ToLower(Trim(s)) == Trim(ToLower(s))
  {
    LowerTrimLeft(s);
    LowerTrimRight(TrimLeft(s));
  }

  // ---------- byte order ----------

  /** `s <= t` in Go's string order. */
  predicate Leq(s: string, t: string) {
    if s == [] then true
    else if t == [] then false
    else if s[0] != t[0] then s[0] < t[0]
    else Leq(s[1..], t[1..])
  }

  lemma {:induction false} LeqReflexive(s: string)
    ensures Leq(s, s)
  {
    if s != [] {
      LeqReflexive(s[1..]);
    }
  }

  lemma {:induction false} LeqTotal(s: string, t: string)
    ensures Leq(s, t) || Leq(t, s)
  {
    if s != [] && t != [] && s[0] == t[0] {
      LeqTotal(s[1..], t[1..]);
    }
  }

  lemma {:induction false} LeqTransitive(s: string, t: string, u: string)
    requires Leq(s, t) && Leq(t, u)
    ensures Leq(s, u)
  {
    if s != [] && s[0] == t[0] && t[0] == u[0] {
      LeqTransitive(s[1..], t[1..], u[1..]);
    }
  }

  lemma {:induction false} LeqAntisymmetric(s: string, t: string)
    requires Leq(s, t) && Leq(t, s)
    ensures s == t
  {
    if s != [] {
      LeqAntisymmetric(s[1..], t[1..]);
      assert s == [s[0]] + s[1..] && t == [t[0]] + t[1..];
    }
  }

  lemma SameStart(s: string, t: string, k: nat)
    requires 0 < k <= |s| && k <= |t| && s[..k] == t[..k]
    ensures s[0] == t[0]
  {
    assert s[..k][0] == t[..k][0];
  }

  /** Go's string order: a prefix, or smaller at the first difference. */
  lemma {:induction false} LeqMeans(s: string, t: string)
    ensures Leq(s, t) <==> s <= t || exists k :: 0 <= k < |s| && k < |t| && s[..k] == t[..k] && s[k] < t[k]
  {
    if s != [] && t != [] && s[0] == t[0] {
      var u, v := s[1..], t[1..];
      LeqMeans(u, v);
      assert s == [s[0]] + u && t == [t[0]] + v;
      if k :| 0 <= k < |u| && k < |v| && u[..k] == v[..k] && u[k] < v[k] {
        assert s[..k + 1] == [s[0]] + u[..k] == t[..k + 1] && s[k + 1] < t[k + 1];
      }
      if k :| 0 <= k < |s| && k < |t| && s[..k] == t[..k] && s[k] < t[k] {
        assert k > 0;
        assert u[..k - 1] == s[1..k] == t[1..k] == v[..k - 1] && u[k - 1] < v[k - 1];
      }
    } else if s != [] && t != [] {
      if k :| 0 <= k < |s| && k < |t| && s[..k] == t[..k] && s[k] < t[k] {
        if k > 0 {
          SameStart(s, t, k);
        }
      }
      assert s[0] < t[0] ==> s[..0] == t[..0];
    }
  }

  lemma LeqOrder()
    ensures TotalPreorder(Leq)
  {
    forall a, b ensures Leq(a, b) || Leq(b, a) {
      LeqTotal(a, b);
    }
    forall a, b, c | Leq(a, b) && Leq(b, c) ensures Leq(a, c) {
      LeqTransitive(a, b, c);
    }
  }

  // ---------- searching ----------

  /** Position of the first `c` in `s`, |s| if there is none. */
  function IndexOf(s: string, c: char): (i: nat)
    ensures i <= |s|
    ensures i < |s| ==> s[i] == c
    ensures forall j :: 0 <= j < i ==> s[j] != c
  {
    if s == [] || s[0] == c then 0 else 1 + IndexOf(s[1..], c)
  }

  /** The text in front of the first `c`, when nothing in front of it is `c`. */
  lemma IndexOfFirst(front: string, c: char, tail: string)
    requires c !in front
    ensures IndexOf(front + [c] + tail, c) == |front|
    ensures (front + [c] + tail)[..|front|] == front
    ensures (front + [c] + tail)[|front| + 1..] == tail
  {
    var s := front + [c] + tail;
    assert s[|front|] == c;
    var i := IndexOf(s, c);
    assert forall j :: 0 <= j < |front| ==> s[j] == front[j];
  }

  /** Two texts cut at the first separator agree in both parts. */
  lemma CutInjective(a: string, c: char, s: string, b: string, t: string)
    requires c !in a && c !in b
    requires a + [c] + s == b + [c] + t
    ensures a == b && s == t
  {
    IndexOfFirst(a, c, s);
    IndexOfFirst(b, c, t);
  }
}
