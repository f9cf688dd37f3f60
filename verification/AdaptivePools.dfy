/** Exactly which inputs an adaptive ranking lists, how often, in which order, and with which scores
    in the branch that DNS failures open. */
module AdaptivePools {
  import opened Sorting
  import opened Folds
  import opened Profiles
  import opened AdaptiveMemory
  import opened AdaptiveScores
  import opened AdaptiveRanking
  import opened NormalizeProofs
  import opened Text

  /** A profile up to the figures that ranking it replaces. */
  function Unscored(p: Profile): Profile {
    p.(health := p.health.(score := 0.0))
  }

  function Untrusted(p: Profile): Profile {
    Unscored(p).(source := p.source.(trustLevel := 0))
  }

  /** The inputs that may be selected. */
  function SelectableOf(m: Memory, profiles: seq<Profile>, now: int): seq<Profile> {
    if profiles == [] then []
    else
      SelectableOf(m, profiles[..|profiles| - 1], now)
      + if Selectable(m, profiles[|profiles| - 1], now) then [profiles[|profiles| - 1]] else []
  }

  /** Those that recent DNS failures do not hold back. */
  function AdmittedOf(m: Memory, profiles: seq<Profile>, now: int): seq<Profile> {
    if profiles == [] then []
    else
      AdmittedOf(m, profiles[..|profiles| - 1], now)
      + if Admitted(m, profiles[|profiles| - 1], now) then [profiles[|profiles| - 1]] else []
  }

  /** The DNS family, or the tag, whatever its case and the white space around it. */
  predicate NeedsDns(p: Profile) {
    p.family == "dns_tunnel" || exists t :: t in p.capabilities.dpiResistanceTags && ToLower(Trim(t)) == "dns-dependent"
  }

  lemma NeedsDnsExactly(p: Profile)
    ensures DnsDependent(p) <==> NeedsDns(p)
  {
    DnsDependentIsClean();
    hide ToLower, Trim;
    var tags := p.capabilities.dpiResistanceTags;
    if HasTag(tags, DNS_DEPENDENT) {
      var i :| 0 <= i < |tags| && EqualFold(Trim(tags[i]), ToLower(Trim(DNS_DEPENDENT)));
      assert tags[i] in tags && ToLower(Trim(tags[i])) == "dns-dependent";
    }
    if t :| t in tags && ToLower(Trim(t)) == "dns-dependent" {
      var i :| 0 <= i < |tags| && tags[i] == t;
      assert EqualFold(Trim(tags[i]), ToLower(Trim(DNS_DEPENDENT)));
    }
  }

  predicate DnsFails(m: Memory) {
    "DNS_BLOCKED" in RecentFailures(m.events)
  }

  ghost predicate OnlyDns(m: Memory, profiles: seq<Profile>, now: int) {
    DnsFails(m) && forall i :: 0 <= i < |profiles| && Selectable(m, profiles[i], now) ==> NeedsDns(profiles[i])
  }

  lemma {:induction false} FallbackMaps(m: Memory, profiles: seq<Profile>, now: int)
    ensures Map(Unscored, FallbackPool(m, profiles, now)) == Map(Unscored, SelectableOf(m, profiles, now))
    ensures forall i :: 0 <= i < |FallbackPool(m, profiles, now)| ==>
              FallbackPool(m, profiles, now)[i].health.score == 100.0 * FallbackPool(m, profiles, now)[i].health.successEWMA
  {
    hide Selectable;
    if profiles != [] {
      FallbackMaps(m, profiles[..|profiles| - 1], now);
    }
  }

  lemma {:induction false} StrictMaps(m: Memory, profiles: seq<Profile>, now: int)
    ensures Map(Untrusted, StrictPool(m, profiles, now)) == Map(Untrusted, AdmittedOf(m, profiles, now))
  {
    hide Admitted, Score, TrustOf;
    if profiles != [] {
      StrictMaps(m, profiles[..|profiles| - 1], now);
    }
  }

  lemma OnlyDnsPool(m: Memory, profiles: seq<Profile>, now: int)
    requires OnlyDns(m, profiles, now)
    ensures Pool(m, profiles, now) == FallbackPool(m, profiles, now)
  {
    StrictEmpty(m, profiles, now);
    forall p ensures DnsDependent(p) <==> NeedsDns(p) {
      NeedsDnsExactly(p);
    }
    hide StrictPool, FallbackPool, RecentFailures, DnsDependent, NeedsDns, Selectable;
  }

  /** When DNS failures are recent and nothing but DNS-dependent profiles may be selected, the ranking
      lists exactly the inputs that may be selected, each as often as it was given and unchanged but
      for its score, which is one hundred times its success rate, in descending order of that rate. */
  lemma DnsOnlyRanking(m: Memory, profiles: seq<Profile>, now: int, ranked: seq<Profile>, d: Decision)
    requires m.enabled && Decided(m, profiles, now, ranked, d) && OnlyDns(m, profiles, now)
    ensures Bag(Unscored, ranked) == Bag(Unscored, SelectableOf(m, profiles, now))
    ensures forall i :: 0 <= i < |ranked| ==> ranked[i].health.score == 100.0 * ranked[i].health.successEWMA
    ensures forall i, j :: 0 <= i < j < |ranked| ==> ranked[i].health.successEWMA >= ranked[j].health.successEWMA
  {
    hide FallbackPool, SelectableOf, DecisionFrom, OnlyDns;
    OnlyDnsPool(m, profiles, now);
    FallbackMaps(m, profiles, now);
    var pool := FallbackPool(m, profiles, now);
    SameElements(ranked, pool);
    BagPermutation(Unscored, ranked, pool);
    forall i | 0 <= i < |ranked| ensures ranked[i].health.score == 100.0 * ranked[i].health.successEWMA {
      assert ranked[i] in pool;
      var k :| 0 <= k < |pool| && pool[k] == ranked[i];
    }
    forall i, j | 0 <= i < j < |ranked| ensures ranked[i].health.successEWMA >= ranked[j].health.successEWMA {
      assert BetterProfile(ranked[i], ranked[j]) && ranked[i] in ranked && ranked[j] in ranked;
    }
  }

  /** While DNS failures are recent, a profile that needs DNS is ranked only when all that may be
      selected do. */
  lemma DnsRankedLast(m: Memory, profiles: seq<Profile>, now: int, ranked: seq<Profile>, d: Decision, q: Profile)
    requires m.enabled && Decided(m, profiles, now, ranked, d) && q in ranked && DnsFails(m) && NeedsDns(q)
    ensures OnlyDns(m, profiles, now)
  {
    hide Decided, RecentFailures, Selectable, DnsDependent, NeedsDns;
    NeedsDnsExactly(q);
    DnsLastResort(m, profiles, now, ranked, d, q);
    forall i | 0 <= i < |profiles| && Selectable(m, profiles[i], now) ensures NeedsDns(profiles[i]) {
      NeedsDnsExactly(profiles[i]);
    }
  }

  lemma SelectableListed(m: Memory, profiles: seq<Profile>, now: int, i: nat)
    requires i < |profiles| && Selectable(m, profiles[i], now)
    ensures profiles[i] in SelectableOf(m, profiles, now)
  {
    hide Selectable;
    if i < |profiles| - 1 {
      SelectableListed(m, profiles[..|profiles| - 1], now, i);
    }
  }

  lemma MapMember<T, K>(f: T -> K, s: seq<T>, t: seq<T>, x: T)
    requires Bag(f, s) == Bag(f, t) && x in t
    ensures exists i :: 0 <= i < |s| && f(s[i]) == f(x)
  {
    var a, b, y := Map(f, s), Map(f, t), f(x);
    assert multiset(a) == multiset(b);
    var j :| 0 <= j < |t| && t[j] == x;
    assert b[j] == y;
    assert y in multiset(b);
    assert y in multiset(a);
    var i :| 0 <= i < |a| && a[i] == y;
    assert f(s[i]) == y;
  }

  /** So the profile returned has the highest success rate of all that may be selected. */
  lemma DnsOnlyBest(m: Memory, profiles: seq<Profile>, now: int, ranked: seq<Profile>, d: Decision, i: nat)
    requires m.enabled && Decided(m, profiles, now, ranked, d) && OnlyDns(m, profiles, now)
    requires i < |profiles| && Selectable(m, profiles[i], now)
    ensures ranked != [] && ranked[0].health.successEWMA >= profiles[i].health.successEWMA
  {
    DnsOnlyRanking(m, profiles, now, ranked, d);
    SelectableListed(m, profiles, now, i);
    hide Decided, OnlyDns, SelectableOf, Selectable, Bag;
    MapMember(Unscored, ranked, SelectableOf(m, profiles, now), profiles[i]);
    var k :| 0 <= k < |ranked| && Unscored(ranked[k]) == Unscored(profiles[i]);
  }

  /** Otherwise it lists exactly the admitted inputs, each as often as it was given. */
  lemma AdmittedRanking(m: Memory, profiles: seq<Profile>, now: int, ranked: seq<Profile>, d: Decision)
    requires m.enabled && Decided(m, profiles, now, ranked, d)
    requires exists i :: 0 <= i < |profiles| && Admitted(m, profiles[i], now)
    ensures Bag(Untrusted, ranked) == Bag(Untrusted, AdmittedOf(m, profiles, now))
  {
    StrictEmpty(m, profiles, now);
    StrictMaps(m, profiles, now);
    hide StrictPool, FallbackPool, AdmittedOf, DecisionFrom, Admitted;
    BagPermutation(Untrusted, ranked, StrictPool(m, profiles, now));
  }
}
