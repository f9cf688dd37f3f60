/** What normalisation guarantees about an accepted profile, and when doing it twice changes nothing. */
module NormalizeProofs {
  import opened Text
  import opened Counting
  import opened Sorting
  import opened Profiles
  import opened Normalize

  // ---------- what an accepted record looks like ----------

  lemma FamilySupported(f: Family)
    ensures NormalizeFamily(f) == "" || SupportedFamily(NormalizeFamily(f))
    ensures '|' !in NormalizeFamily(f)
    ensures NormalizeFamily(NormalizeFamily(f)) == NormalizeFamily(f)
  {
    hide Clean;
    CleanFamilies();
    CleanSpellings();
  }

  /** The family names are clean, and so are the spellings "dual" and "". */
  lemma CleanFamilies()
    ensures Clean(FAMILY_REALITY) == FAMILY_REALITY && Clean(FAMILY_HYSTERIA2) == FAMILY_HYSTERIA2
    ensures Clean(FAMILY_TUIC) == FAMILY_TUIC && Clean(FAMILY_SHADOWTLS) == FAMILY_SHADOWTLS
  {
    hide Clean;
    CleanLower(FAMILY_REALITY);
    CleanLower(FAMILY_HYSTERIA2);
    CleanLower(FAMILY_TUIC);
    CleanLower(FAMILY_SHADOWTLS);
  }

  lemma CleanSpellings()
    ensures Clean(FAMILY_DNS) == FAMILY_DNS && Clean("") == "" && Clean("dual") == "dual"
  {
    hide Clean;
    CleanLower(FAMILY_DNS);
    CleanLower("");
    CleanLower("dual");
  }

  predicate LowerText(s: string) {
    forall i :: 0 <= i < |s| ==> !('A' <= s[i] <= 'Z') && !IsSpace(s[i])
  }

  lemma CleanLower(s: string)
    requires LowerText(s)
    ensures Clean(s) == s
  {
    assert ToLower(s) == s;
    SpaceFreeTrimmed(s);
  }

  lemma CleanIdempotent(s: string)
    ensures Clean(Clean(s)) == Clean(s)
  {
    var x := ToLower(s);
    LowerTrim(x);
    ToLowerIdempotent(s);
    TrimIdempotent(x);
  }

  /** An accepted profile has a supported family, so that its endpoint key names its endpoint, a
      valid ID, host, port and trust level, and only well-formed tags. */
  lemma AcceptedProfile(p: Profile, now: int)
    requires Normal(p, now).Normalized?
    ensures var q := Normal(p, now).profile;
            && SupportedFamily(q.family) && '|' !in q.family
            && IdPattern(q.id) && q.endpoint.host != "" && 0 < q.endpoint.port <= 65535
            && 0 < q.source.trustLevel <= 100 && -100 <= q.priority <= 100
            && AllTagsValid(q.capabilities.dpiResistanceTags)
            && q.enabled && !q.manualDisabled && q.health == NO_HEALTH
            && (q.expiresAt == 0 || q.expiresAt > now)
  {
    hide Clean, Trim, WireTags, IdPattern, NormalizeFamily, AllTagsValid, BadTemplateRef;
    FamilySupported(p.family);
  }

  /** The tag test of the adaptive policy (pkg/policy/adaptive.go, hasTag). */
  predicate HasTag(tags: seq<string>, wanted: string) {
    exists i :: 0 <= i < |tags| && EqualFold(Trim(tags[i]), ToLower(Trim(wanted)))
  }

  const DNS_DEPENDENT := "dns-dependent"

  lemma PatternTrimmed(t: string)
    requires TagPattern(t)
    ensures Trim(t) == t
  {
    assert SpaceFree(t);
    SpaceFreeTrimmed(t);
  }

  lemma DnsDependentIsClean()
    ensures ToLower(Trim(DNS_DEPENDENT)) == DNS_DEPENDENT
    ensures ToLower(DNS_DEPENDENT) == DNS_DEPENDENT
    ensures DNS_DEPENDENT[3] == '-'
  {
    assert SpaceFree(DNS_DEPENDENT);
    SpaceFreeTrimmed(DNS_DEPENDENT);
    assert ToLower(DNS_DEPENDENT) == DNS_DEPENDENT;
  }

  /** The hyphen keeps "dns-dependent" out of every accepted profile: the adaptive policy's rule for
      that tag never applies to a profile that came through a bundle. */
  lemma NeverDnsDependent(p: Profile, now: int)
    requires Normal(p, now).Normalized?
    ensures !HasTag(Normal(p, now).profile.capabilities.dpiResistanceTags, DNS_DEPENDENT)
  {
    AcceptedProfile(p, now);
    var tags := Normal(p, now).profile.capabilities.dpiResistanceTags;
    hide Normal, Trim, ToLower;
    DnsDependentIsClean();
    forall i | 0 <= i < |tags| ensures !EqualFold(Trim(tags[i]), ToLower(Trim(DNS_DEPENDENT))) {
      PatternTrimmed(tags[i]);
      NoHyphen(tags[i]);
    }
  }

  lemma NoHyphen(t: string)
    requires TagPattern(t)
    ensures !EqualFold(t, DNS_DEPENDENT)
  {
    DnsDependentIsClean();
    if |t| > 3 {
      assert ToLower(t)[3] == LowerChar(t[3]) != '-';
    }
  }

  // ---------- normalising twice ----------

  predicate CleanTag(t: string) {
    t != "" && ToLower(Trim(t)) == t
  }

  lemma TagCleaned(t: string)
    ensures ToLower(Trim(t)) != "" ==> CleanTag(ToLower(Trim(t)))
  {
    LowerTrim(t);
    LowerTrim(Trim(t));
    ToLowerIdempotent(Trim(t));
    TrimIdempotent(t);
  }

  lemma {:induction false} CleanTagsAreClean(tags: seq<string>)
    ensures forall t :: t in CleanTags(tags) ==> CleanTag(t)
  {
    if tags != [] {
      hide CleanTag;
      CleanTagsAreClean(tags[..|tags| - 1]);
      TagCleaned(tags[|tags| - 1]);
    }
  }

  lemma {:induction false} CleanTagsFixed(tags: seq<string>)
    requires forall t :: t in tags ==> CleanTag(t)
    ensures CleanTags(tags) == tags
  {
    if tags != [] {
      var n := |tags| - 1;
      assert tags == tags[..n] + [tags[n]];
      assert tags[n] in tags;
      CleanTagsFixed(tags[..n]);
    }
  }

  lemma {:induction false} DropRepeatsElements(s: seq<string>)
    ensures forall t :: t in DropRepeats(s) ==> t in s
  {
    if s != [] {
      DropRepeatsElements(s[..|s| - 1]);
      assert s == s[..|s| - 1] + [s[|s| - 1]];
    }
  }

  lemma SortedSnoc(s: seq<string>, t: string)
    ensures Sorted(Leq, s + [t]) <==> Sorted(Leq, s) && (s != [] ==> Leq(s[|s| - 1], t))
  {
    if Sorted(Leq, s + [t]) {
      assert forall i :: 0 <= i < |s| ==> (s + [t])[i] == s[i];
      assert (s + [t])[|s|] == t;
    }
    if Sorted(Leq, s) && s != [] && Leq(s[|s| - 1], t) {
      forall i | 0 <= i < |s| ensures Leq(s[i], t) {
        if i < |s| - 1 {
          LeqTransitive(s[i], s[|s| - 1], t);
        }
      }
    }
  }

  /** Dropping repeats neither hides nor creates disorder. */
  lemma {:induction false} DropRepeatsSorted(s: seq<string>)
    ensures Sorted(Leq, DropRepeats(s)) <==> Sorted(Leq, s)
  {
    if s != [] {
      hide Sorted, Leq;
      var n := |s| - 1;
      var front := DropRepeats(s[..n]);
      DropRepeatsSorted(s[..n]);
      SortedSnoc(s[..n], s[n]);
      SortedSnoc(front, s[n]);
      LeqReflexive(s[n]);
      assert s == s[..n] + [s[n]];
    } else {
      assert Sorted(Leq, s);
    }
  }

  ghost predicate NoRepeats(s: seq<string>) {
    forall i :: 0 <= i < |s| - 1 ==> s[i] != s[i + 1]
  }

  lemma {:induction false} DropRepeatsNoRepeats(s: seq<string>)
    ensures NoRepeats(DropRepeats(s))
  {
    if s != [] {
      DropRepeatsNoRepeats(s[..|s| - 1]);
    }
  }

  lemma {:induction false} DropRepeatsFixed(s: seq<string>)
    requires NoRepeats(s)
    ensures DropRepeats(s) == s
  {
    if s != [] {
      var n := |s| - 1;
      assert s == s[..n] + [s[n]];
      if n > 0 {
        assert s[n - 1] != s[n - 1 + 1];
      }
      DropRepeatsFixed(s[..n]);
    }
  }

  /** Are the tags still in order once they are trimmed and lower-cased? */
  predicate TagsStaySorted(tags: seq<string>) {
    var t := CleanTags(StableSort(Leq, tags));
    forall i, j :: 0 <= i < j < |t| ==> Leq(t[i], t[j])
  }

  /** Tags come out unchanged the second time exactly when they stay sorted the first time. */
  lemma WireTagsTwice(tags: seq<string>)
    ensures WireTags(WireTags(tags)) == WireTags(tags) <==> TagsStaySorted(tags)
  {
    var cleaned := CleanTags(StableSort(Leq, tags));
    var once := DropRepeats(cleaned);
    CleanTagsAreClean(StableSort(Leq, tags));
    DropRepeatsElements(cleaned);
    DropRepeatsSorted(cleaned);
    LeqOrder();
    SortSorted(Leq, once);
    SortMultiset(Leq, once);
    SameElements(StableSort(Leq, once), once);
    CleanTagsFixed(StableSort(Leq, once));
    DropRepeatsSorted(StableSort(Leq, once));
    if Sorted(Leq, once) {
      SortOfSorted(Leq, once);
      DropRepeatsNoRepeats(cleaned);
      DropRepeatsFixed(once);
    }
  }

  /** Everything except the tags is settled by the first normalisation. */
  lemma CanonicalTwice(p: Profile, now: int)
    ensures var q := Canonical(p, now);
            Canonical(q, now) == q.(capabilities := q.capabilities.(dpiResistanceTags := WireTags(q.capabilities.dpiResistanceTags)))
  {
    hide Clean, Trim, WireTags, NormalizeFamily;
    CleanIdempotent(p.id);
    FamilySupported(p.family);
    CleanIdempotent(p.endpoint.host);
    CleanIdempotent(p.endpoint.ipVersion);
    CleanSpellings();
    TrimIdempotent(p.templateRef);
    CleanIdempotent(p.capabilities.transport);
    CleanIdempotent(p.capabilities.bandwidthClass);
    TrimIdempotent(p.source.source);
    TrimIdempotent(p.notes);
  }

  /** An accepted profile is a fixed point of normalisation if and only if its tags stayed sorted. */
  lemma NormalizeTwice(p: Profile, now: int)
    requires Normal(p, now).Normalized?
    ensures Normal(Normal(p, now).profile, now) == Normal(p, now)
       <==> TagsStaySorted(p.capabilities.dpiResistanceTags)
  {
    hide FirstProblem, WireTags, TagsStaySorted;
    var q := Canonical(p, now);
    CanonicalTwice(p, now);
    WireTagsTwice(p.capabilities.dpiResistanceTags);
    CanonicalTags(p, now);
    hide Canonical;
    assert Normal(p, now) == Normalized(q);
    assert Canonical(q, now).capabilities.dpiResistanceTags == WireTags(q.capabilities.dpiResistanceTags);
  }

  lemma CanonicalTags(p: Profile, now: int)
    ensures Canonical(p, now).capabilities.dpiResistanceTags == WireTags(p.capabilities.dpiResistanceTags)
  {
    hide WireTags, Clean, Trim, NormalizeFamily;
  }

  /** Trimmed lower-case tags stay sorted. */
  lemma CleanTagsStaySorted(tags: seq<string>)
    requires forall t :: t in tags ==> CleanTag(t)
    ensures TagsStaySorted(tags)
  {
    LeqOrder();
    SortSorted(Leq, tags);
    SortMultiset(Leq, tags);
    SameElements(StableSort(Leq, tags), tags);
    CleanTagsFixed(StableSort(Leq, tags));
  }

  // ---------- tags that do not stay sorted ----------

  const CLEAN_PAIR: seq<string> := ["z", "a"]

  const UNTIDY_PAIR: seq<string> := ["Z", "a"]

  lemma LowerOne(c: char)
    requires !IsSpace(c)
    ensures ToLower(Trim([c])) == [LowerChar(c)]
  {
    TrimFixpoint([c]);
  }

  lemma CleanPair(x: char, y: char)
    requires !IsSpace(x) && !IsSpace(y)
    ensures CleanTags([[x], [y]]) == [[LowerChar(x)], [LowerChar(y)]]
  {
    LowerOne(x);
    LowerOne(y);
    hide ToLower, Trim, LowerChar;
    assert [[x], [y]][..1] == [[x]] && [[x]][..0] == [];
    assert CleanTags([[x]]) == [[LowerChar(x)]];
  }

  lemma PairInOrder()
    ensures StableSort(Leq, UNTIDY_PAIR) == UNTIDY_PAIR
  {
    assert Leq("Z", "a");
    SortOfSorted(Leq, UNTIDY_PAIR);
  }

  lemma PairCleaned()
    ensures CleanTags(UNTIDY_PAIR) == CLEAN_PAIR
  {
    CleanPair('Z', 'a');
    hide CleanTags;
    assert LowerChar('Z') == 'z' && LowerChar('a') == 'a';
  }

  lemma PairKept()
    ensures DropRepeats(CLEAN_PAIR) == CLEAN_PAIR
  {
    assert CLEAN_PAIR[..1] == ["z"] && ["z"][..0] == [];
    assert DropRepeats(["z"]) == ["z"];
  }

  lemma CleanPairOutOfOrder()
    ensures !Leq(CLEAN_PAIR[0], CLEAN_PAIR[1])
  {
    assert !Leq("z", "a");
  }

  /** "Z" sorts before "a", but "z" after it. */
  lemma UntidyTags()
    ensures StableSort(Leq, UNTIDY_PAIR) == UNTIDY_PAIR
    ensures CleanTags(StableSort(Leq, UNTIDY_PAIR)) == CLEAN_PAIR && WireTags(UNTIDY_PAIR) == CLEAN_PAIR
    ensures !TagsStaySorted(UNTIDY_PAIR)
  {
    PairInOrder();
    PairCleaned();
    PairKept();
    CleanPairOutOfOrder();
    hide StableSort, CleanTags, DropRepeats, Leq;
    assert |CLEAN_PAIR| == 2;
  }

  lemma PairOfTags()
    ensures AllTagsValid(CLEAN_PAIR)
  {
  }

  function WithTags(p: Profile, tags: seq<string>): Profile {
    p.(capabilities := p.capabilities.(dpiResistanceTags := tags))
  }

  /** Tags do not matter to anything but the test of the tags themselves. */
  lemma OtherTags(p: Profile, tags: seq<string>, now: int)
    requires Normal(p, now).Normalized? && AllTagsValid(WireTags(tags))
    ensures Normal(WithTags(p, tags), now).Normalized?
  {
    hide Clean, Trim, NormalizeFamily, WireTags, AllTagsValid, IdPattern, BadTemplateRef, ValidTransport, ValidBandwidth, CheckCredentials;
  }

  /** Whatever accepted profile one starts from: with these tags it is accepted as well, and
      normalising it a second time changes it. */
  lemma NotAFixedPoint(p: Profile, now: int)
    requires Normal(p, now).Normalized?
    ensures var q := WithTags(p, UNTIDY_PAIR);
            Normal(q, now).Normalized? && Normal(Normal(q, now).profile, now) != Normal(q, now)
  {
    UntidyTags();
    PairOfTags();
    hide TagsStaySorted, AllTagsValid, WireTags, Normal;
    OtherTags(p, UNTIDY_PAIR, now);
    NormalizeTwice(WithTags(p, UNTIDY_PAIR), now);
  }

  const PLAIN_PROFILE := Profile(
    "a", FAMILY_SHADOWTLS, true, false, 1, 0, 0, "", Endpoint("h", 443, "v4"), Capabilities("tcp", [], ""),
    Credentials("", "", "", "", "", "", ""), SourceInfo("s", 1, 1, ""), "", MutationPolicy([], 0), NO_HEALTH)

  lemma PlainSpellings()
    ensures Clean("a") == "a" && Clean("h") == "h" && Clean("v4") == "v4" && Clean("tcp") == "tcp"
    ensures Trim("s") == "s" && Trim("") == "" && WireTags([]) == []
  {
    hide Clean;
    CleanLower("a");
    CleanLower("h");
    CleanLower("v4");
    CleanLower("tcp");
    TrimFixpoint("s");
  }

  lemma PlainFamilyName()
    ensures NormalizeFamily(FAMILY_SHADOWTLS) == FAMILY_SHADOWTLS
  {
    hide Clean;
    CleanFamilies();
  }

  /** There are accepted profiles. */
  lemma PlainAccepted(now: int)
    ensures Normal(PLAIN_PROFILE, now).Normalized?
  {
    PlainSpellings();
    CleanSpellings();
    PlainFamilyName();
    hide Clean, Trim, WireTags, NormalizeFamily;
  }

  // ---------- tags that come twice ----------

  /** Equal entries stand next to each other. */
  ghost predicate Together(s: seq<string>) {
    forall i, j, k :: 0 <= i < j < k < |s| && s[i] == s[k] ==> s[i] == s[j]
  }

  lemma DistinctSnoc(s: seq<string>, t: string)
    ensures Distinct(s + [t]) <==> Distinct(s) && t !in s
  {
    var all := s + [t];
    assert forall i :: 0 <= i < |s| ==> all[i] == s[i];
    assert all[|s|] == t;
  }

  lemma TogetherSnoc(s: seq<string>, t: string)
    ensures Together(s + [t]) <==> Together(s) && (t in s ==> s[|s| - 1] == t)
  {
    var all, n := s + [t], |s|;
    assert forall i :: 0 <= i < n ==> all[i] == s[i];
    assert all[n] == t;
    if Together(s) && (t in s ==> s[n - 1] == t) {
      forall i, j | 0 <= i < j < n && s[i] == t ensures s[j] == t {
        assert j == n - 1 || s[i] == s[j];
      }
    }
    if Together(all) && t in s {
      var i :| 0 <= i < n && s[i] == t;
      assert i == n - 1 || all[i] == all[n - 1];
    }
  }

  /** Only neighbours are compared, so no tag comes twice exactly when equal tags stand together. */
  lemma {:induction false} DropRepeatsDistinct(s: seq<string>)
    ensures Distinct(DropRepeats(s)) <==> Together(s)
    ensures forall t :: t in DropRepeats(s) <==> t in s
  {
    hide Distinct, Together;
    if s == [] {
      NothingTwice();
    } else {
      var n := |s| - 1;
      DropRepeatsDistinct(s[..n]);
      DistinctSnoc(DropRepeats(s[..n]), s[n]);
      TogetherSnoc(s[..n], s[n]);
      assert s == s[..n] + [s[n]];
    }
  }

  lemma NothingTwice()
    ensures Distinct<string>([]) && Together([])
  {
  }

  lemma SortedTogether(s: seq<string>)
    requires Sorted(Leq, s)
    ensures Together(s)
  {
    forall i, j, k | 0 <= i < j < k < |s| && s[i] == s[k] ensures s[i] == s[j] {
      LeqAntisymmetric(s[i], s[j]);
    }
  }

  /** Despite its name, uniqueSortedTags returns a tag twice unless equal tags still stand together
      after cleaning; tags that stay sorted do. */
  lemma WireTagsDistinct(tags: seq<string>)
    ensures Distinct(WireTags(tags)) <==> Together(CleanTags(StableSort(Leq, tags)))
    ensures TagsStaySorted(tags) ==> Distinct(WireTags(tags))
  {
    var t := CleanTags(StableSort(Leq, tags));
    DropRepeatsDistinct(t);
    if TagsStaySorted(tags) {
      SortedTogether(t);
    }
  }

  const CASE_TAGS: seq<string> := ["A", "B", "a"]

  const LOWER_TAGS: seq<string> := ["a", "b", "a"]

  lemma CaseTagsInOrder()
    ensures StableSort(Leq, CASE_TAGS) == CASE_TAGS
  {
    assert Leq("A", "B") && Leq("B", "a") && Leq("A", "a");
    SortOfSorted(Leq, CASE_TAGS);
  }

  lemma CaseTagsCleaned()
    ensures CleanTags(CASE_TAGS) == LOWER_TAGS
  {
    CleanPair('A', 'B');
    LowerOne('a');
    assert LowerChar('A') == 'a' && LowerChar('B') == 'b' && LowerChar('a') == 'a';
    hide ToLower, Trim, LowerChar;
    assert CASE_TAGS[..2] == ["A", "B"];
  }

  lemma LowerTagsKept()
    ensures DropRepeats(LOWER_TAGS) == LOWER_TAGS
  {
    assert LOWER_TAGS[..2] == ["a", "b"] && ["a", "b"][..1] == ["a"] && ["a"][..0] == [];
    assert DropRepeats(["a"]) == ["a"];
    assert DropRepeats(["a", "b"]) == ["a", "b"];
  }

  /** The tags A, B and a come out as a, b, a. */
  lemma TagTwice()
    ensures WireTags(CASE_TAGS) == LOWER_TAGS && !Distinct(WireTags(CASE_TAGS))
  {
    CaseTagsInOrder();
    CaseTagsCleaned();
    LowerTagsKept();
    hide CleanTags, DropRepeats, StableSort, Leq;
    assert LOWER_TAGS[0] == LOWER_TAGS[2];
  }
}
