/** Which profiles normalisation accepts, told on the raw input (pkg/profile/normalize.go). */
module NormalizeAcceptance {
  import opened Text
  import opened Sorting
  import opened Profiles
  import opened Normalize
  import opened NormalizeProofs

  // ---------- the canonical record, field by field ----------

  function OrNow(time: int, now: int): int {
    if time == 0 then now else time
  }

  lemma NormalIsCanonical(p: Profile, now: int)
    requires Normal(p, now).Normalized?
    ensures var q := Normal(p, now).profile;
            q == Canonical(p, now) && q.source.trustLevel > 0 && q.source.source != "" && q.family != ""
  {
    hide Canonical, CheckEndpoint, CheckCapabilities, CheckTimes, CheckCredentials, IdPattern;
  }

  lemma CanonicalFields(p: Profile, now: int)
    ensures var q := Canonical(p, now);
            && q.id == Clean(p.id) && q.family == NormalizeFamily(p.family)
            && q.credentials == p.credentials && q.priority == p.priority && q.expiresAt == p.expiresAt
            && q.mutationPolicy == p.mutationPolicy && q.source.publisherKey == p.source.publisherKey
            && q.source.trustLevel == p.source.trustLevel && q.source.source == Trim(p.source.source)
            && q.source.importedAt == OrNow(p.source.importedAt, now) && q.createdAt == OrNow(p.createdAt, now)
            && q.templateRef == Trim(p.templateRef) && q.notes == Trim(p.notes)
    ensures var q := Canonical(p, now);
            && q.endpoint.host == Clean(p.endpoint.host) && q.endpoint.port == p.endpoint.port
            && q.endpoint.ipVersion == (if Clean(p.endpoint.ipVersion) == "" then "dual" else Clean(p.endpoint.ipVersion))
            && q.capabilities.transport == Clean(p.capabilities.transport)
            && q.capabilities.bandwidthClass == Clean(p.capabilities.bandwidthClass)
            && q.capabilities.dpiResistanceTags == WireTags(p.capabilities.dpiResistanceTags)
            && q.enabled && !q.manualDisabled && q.health == NO_HEALTH
  {
    hide Clean, Trim, NormalizeFamily, WireTags;
  }

  lemma CleanMeans(s: string)
    ensures Clean(s) == Trim(ToLower(s))
  {
  }

  // ---------- what is accepted ----------

  const LETTERS: set<char> := {'a', 'b', 'c', 'd', 'e', 'f', 'g', 'h', 'i', 'j', 'k', 'l', 'm',
    'n', 'o', 'p', 'q', 'r', 's', 't', 'u', 'v', 'w', 'x', 'y', 'z'}

  const DIGITS: set<char> := {'0', '1', '2', '3', '4', '5', '6', '7', '8', '9'}

  /** Trimmed and in lower case. */
  function Word(s: string): string {
    Trim(ToLower(s))
  }

  predicate IdStart(c: char) {
    c in LETTERS + DIGITS
  }

  predicate IdChar(c: char) {
    c in LETTERS + DIGITS + {'.', '_', '-'}
  }

  predicate TagChar(c: char) {
    c in LETTERS + DIGITS + {'_'}
  }

  predicate ValidId(s: string) {
    1 <= |s| <= 128 && IdStart(s[0]) && forall i :: 0 <= i < |s| ==> IdChar(s[i])
  }

  predicate ValidTag(s: string) {
    |s| <= 64 && forall i :: 0 <= i < |s| ==> TagChar(s[i])
  }

  predicate Given(s: string) {
    Trim(s) != ""
  }

  /** What every family asks of the transport and the credentials. */
  predicate FamilyRules(family: string, transport: string, c: Credentials) {
    || (family == "reality" && transport == "tcp"
        && Given(c.uuid) && Given(c.publicKey) && Given(c.shortID) && Given(c.sni) && Given(c.utlsFingerprint))
    || ((family == "hysteria2" || family == "hy2") && (transport == "udp" || transport == "quic")
        && Given(c.password) && Given(c.obfsPassword) && Given(c.sni))
    || (family == "tuic" && (transport == "udp" || transport == "quic")
        && Given(c.uuid) && Given(c.password) && Given(c.sni))
    || (family == "shadowtls" && transport == "tcp")
    || (family == "dns_tunnel" && (transport == "udp" || transport == "tcp"))
  }

  predicate ValidReference(s: string) {
    '/' !in s && '\\' !in s && !exists i :: 0 <= i < |s| - 1 && s[i] == '.' && s[i + 1] == '.'
  }

  predicate ValidTimes(p: Profile, now: int) {
    && OrNow(p.source.importedAt, now) >= 0 && OrNow(p.createdAt, now) >= 0
    && (p.expiresAt == 0 || (p.expiresAt > now && p.expiresAt >= OrNow(p.createdAt, now)))
  }

  /** The conditions on a raw profile. */
  predicate Acceptable(p: Profile, now: int) {
    && ValidId(Word(p.id))
    && FamilyRules(Word(p.family), Word(p.capabilities.transport), p.credentials)
    && Word(p.endpoint.host) != "" && 1 <= p.endpoint.port <= 65535
    && (Word(p.endpoint.ipVersion) == "" || Word(p.endpoint.ipVersion) == "v4"
        || Word(p.endpoint.ipVersion) == "v6" || Word(p.endpoint.ipVersion) == "dual")
    && ValidReference(Trim(p.templateRef))
    && (Word(p.capabilities.bandwidthClass) == "" || Word(p.capabilities.bandwidthClass) == "low"
        || Word(p.capabilities.bandwidthClass) == "medium" || Word(p.capabilities.bandwidthClass) == "high")
    && (forall t :: t in p.capabilities.dpiResistanceTags ==> ValidTag(ToLower(Trim(t))))
    && Given(p.source.source) && 1 <= p.source.trustLevel <= 100
    && ValidTimes(p, now) && -100 <= p.priority <= 100
  }

  // ---------- patterns ----------

  lemma AlnumSet(c: char)
    ensures LowerAlnum(c) <==> c in LETTERS + DIGITS
  {
    assert c in LETTERS <==> 'a' <= c <= 'z';
    assert c in DIGITS <==> '0' <= c <= '9';
    hide LETTERS, DIGITS;
  }

  lemma CharSets(c: char)
    ensures IdStart(c) <==> LowerAlnum(c)
    ensures IdChar(c) <==> LowerAlnum(c) || c == '.' || c == '_' || c == '-'
    ensures TagChar(c) <==> LowerAlnum(c) || c == '_'
  {
    AlnumSet(c);
    hide LowerAlnum, LETTERS, DIGITS;
  }

  lemma IdsMatch(s: string)
    ensures IdPattern(s) <==> ValidId(s)
  {
    hide LowerAlnum, IdStart, IdChar;
    forall i | 0 <= i < |s|
      ensures (IdStart(s[i]) <==> LowerAlnum(s[i]))
           && (IdChar(s[i]) <==> LowerAlnum(s[i]) || s[i] == '.' || s[i] == '_' || s[i] == '-')
    {
      CharSets(s[i]);
    }
  }

  lemma TagsMatch(s: string)
    ensures TagPattern(s) <==> s != "" && ValidTag(s)
  {
    hide LowerAlnum, TagChar;
    forall i | 0 <= i < |s| ensures TagChar(s[i]) <==> LowerAlnum(s[i]) || s[i] == '_' {
      CharSets(s[i]);
    }
  }

  lemma {:induction false} CleanTagsElements(tags: seq<string>, t: string)
    ensures t in CleanTags(tags) <==> t != "" && exists u :: u in tags && ToLower(Trim(u)) == t
  {
    hide ToLower, Trim;
    if tags != [] {
      CleanTagsElements(tags[..|tags| - 1], t);
      assert tags == tags[..|tags| - 1] + [tags[|tags| - 1]];
    }
  }

  lemma TagsAccepted(tags: seq<string>)
    ensures AllTagsValid(WireTags(tags)) <==> forall t :: t in tags ==> ValidTag(ToLower(Trim(t)))
  {
    var sorted := StableSort(Leq, tags);
    SortMultiset(Leq, tags);
    SameElements(sorted, tags);
    DropRepeatsDistinct(CleanTags(sorted));
    hide ToLower, Trim, StableSort, DropRepeats, TagPattern, ValidTag, CleanTags;
    if forall t :: t in tags ==> ValidTag(ToLower(Trim(t))) {
      forall t | t in WireTags(tags) ensures TagPattern(t) {
        CleanTagsElements(sorted, t);
        TagsMatch(t);
      }
    }
    if AllTagsValid(WireTags(tags)) {
      forall t | t in tags ensures ValidTag(ToLower(Trim(t))) {
        var word := ToLower(Trim(t));
        CleanTagsElements(sorted, word);
        TagsMatch(word);
        NothingIsValid();
      }
    }
  }

  lemma NothingIsValid()
    ensures ValidTag("")
  {
  }

  lemma ReferenceAccepted(s: string)
    ensures BadTemplateRef(s) <==> !ValidReference(s)
  {
  }

  // ---------- the checks ----------

  lemma CredentialsAccepted(f: Family, transport: string, c: Credentials)
    requires SupportedFamily(f)
    ensures FamilyRules(f, transport, c) <==> ValidTransport(f, transport) && CheckCredentials(f, c).Fine?
  {
    FamilyNamesApart();
    hide Trim;
  }

  lemma SpelledFamily(s: string, transport: string, c: Credentials)
    ensures s == "hy2" ==> (FamilyRules(s, transport, c) <==> FamilyRules(FAMILY_HYSTERIA2, transport, c))
    ensures s != "hy2" && !SupportedFamily(s) ==> !FamilyRules(s, transport, c)
  {
    FamilyNamesApart();
    hide Given;
  }

  lemma NormalizedFamily(f: Family)
    ensures Word(f) == "hy2" ==> NormalizeFamily(f) == FAMILY_HYSTERIA2
    ensures SupportedFamily(Word(f)) ==> NormalizeFamily(f) == Word(f)
    ensures Word(f) != "hy2" && !SupportedFamily(Word(f)) ==> NormalizeFamily(f) == ""
  {
    FamilyNamesApart();
    hide Trim;
  }

  lemma FamilyAccepted(f: string, transport: string, c: Credentials)
    ensures FamilyRules(Word(f), transport, c) <==>
            NormalizeFamily(f) != "" && ValidTransport(NormalizeFamily(f), transport) && CheckCredentials(NormalizeFamily(f), c).Fine?
  {
    assert SupportedFamily(FAMILY_HYSTERIA2) && !SupportedFamily("");
    hide FamilyRules, Word, NormalizeFamily, ValidTransport, CheckCredentials, SupportedFamily;
    NormalizedFamily(f);
    SpelledFamily(Word(f), transport, c);
    if SupportedFamily(NormalizeFamily(f)) {
      CredentialsAccepted(NormalizeFamily(f), transport, c);
    }
  }

  lemma FamilyNamesApart()
    ensures FAMILY_REALITY != FAMILY_HYSTERIA2 && FAMILY_REALITY != FAMILY_TUIC && FAMILY_REALITY != FAMILY_SHADOWTLS
    ensures FAMILY_REALITY != FAMILY_DNS && FAMILY_HYSTERIA2 != FAMILY_TUIC && FAMILY_HYSTERIA2 != FAMILY_SHADOWTLS
    ensures FAMILY_HYSTERIA2 != FAMILY_DNS && FAMILY_TUIC != FAMILY_SHADOWTLS && FAMILY_TUIC != FAMILY_DNS
    ensures FAMILY_SHADOWTLS != FAMILY_DNS && "hy2" != FAMILY_REALITY && "hy2" != FAMILY_TUIC
    ensures "hy2" != FAMILY_SHADOWTLS && "hy2" != FAMILY_DNS
  {
    assert FAMILY_REALITY[0] == 'r' && FAMILY_HYSTERIA2[0] == 'h' && FAMILY_TUIC[0] == 't';
    assert FAMILY_SHADOWTLS[0] == 's' && FAMILY_DNS[0] == 'd' && "hy2"[0] == 'h';
  }

  lemma ChecksMean(q: Profile, now: int)
    ensures FirstProblem(q, now).Fine? <==>
            && q.id != "" && IdPattern(q.id) && q.family != ""
            && q.endpoint.host != "" && 0 < q.endpoint.port <= 65535
            && (q.endpoint.ipVersion == "v4" || q.endpoint.ipVersion == "v6" || q.endpoint.ipVersion == "dual")
            && !BadTemplateRef(q.templateRef) && q.capabilities.transport != "" && ValidTransport(q.family, q.capabilities.transport)
            && ValidBandwidth(q.capabilities.bandwidthClass) && AllTagsValid(q.capabilities.dpiResistanceTags)
            && q.source.source != "" && 0 < q.source.trustLevel <= 100 && q.source.importedAt >= 0
            && CheckCredentials(q.family, q.credentials).Fine?
            && q.createdAt >= 0 && (q.expiresAt == 0 || (q.expiresAt > now && q.expiresAt >= q.createdAt))
            && -100 <= q.priority <= 100
  {
    hide IdPattern, BadTemplateRef, ValidTransport, ValidBandwidth, AllTagsValid, CheckCredentials;
  }

  lemma TransportGiven(f: Family, transport: string)
    requires ValidTransport(f, transport)
    ensures transport != ""
  {
  }

  /** The conditions once the fields are canonical. */
  lemma AcceptableMeans(p: Profile, q: Profile, now: int)
    requires q.id == Word(p.id) && q.endpoint.host == Word(p.endpoint.host) && q.endpoint.port == p.endpoint.port
    requires q.endpoint.ipVersion == (if Word(p.endpoint.ipVersion) == "" then "dual" else Word(p.endpoint.ipVersion))
    requires q.capabilities.transport == Word(p.capabilities.transport) && q.capabilities.bandwidthClass == Word(p.capabilities.bandwidthClass)
    requires q.templateRef == Trim(p.templateRef) && q.source.source == Trim(p.source.source)
    requires q.source.trustLevel == p.source.trustLevel && q.priority == p.priority && q.expiresAt == p.expiresAt
    requires q.source.importedAt == OrNow(p.source.importedAt, now) && q.createdAt == OrNow(p.createdAt, now)
    ensures Acceptable(p, now) <==>
            && ValidId(q.id) && FamilyRules(Word(p.family), q.capabilities.transport, p.credentials)
            && q.endpoint.host != "" && 1 <= q.endpoint.port <= 65535
            && (q.endpoint.ipVersion == "v4" || q.endpoint.ipVersion == "v6" || q.endpoint.ipVersion == "dual")
            && ValidReference(q.templateRef) && ValidBandwidth(q.capabilities.bandwidthClass)
            && (forall t :: t in p.capabilities.dpiResistanceTags ==> ValidTag(ToLower(Trim(t))))
            && q.source.source != "" && 1 <= q.source.trustLevel <= 100 && q.source.importedAt >= 0
            && q.createdAt >= 0 && (q.expiresAt == 0 || (q.expiresAt > now && q.expiresAt >= q.createdAt))
            && -100 <= q.priority <= 100
  {
    hide Word, Trim, ToLower, ValidId, FamilyRules, ValidReference, ValidTag;
  }

  /** A profile is accepted exactly if its raw fields meet the conditions. */
  lemma AcceptedExactly(p: Profile, now: int)
    ensures Normal(p, now).Normalized? <==> Acceptable(p, now)
  {
    var q := Canonical(p, now);
    CanonicalFields(p, now);
    assert forall s :: Word(s) == Clean(s);
    hide Canonical, FirstProblem, Clean, Word, Trim, ToLower, IdPattern, BadTemplateRef, ValidTransport, AllTagsValid, CheckCredentials;
    hide WireTags, NormalizeFamily, FamilyRules, ValidId, ValidTag, ValidReference, Acceptable, ValidBandwidth;
    AcceptableMeans(p, q, now);
    ChecksMean(q, now);
    IdsMatch(q.id);
    FamilyAccepted(p.family, q.capabilities.transport, p.credentials);
    if ValidTransport(q.family, q.capabilities.transport) {
      TransportGiven(q.family, q.capabilities.transport);
    }
    TagsAccepted(p.capabilities.dpiResistanceTags);
    ReferenceAccepted(q.templateRef);
    if q.id == "" {
      IdGiven(q.id);
    }
  }

  lemma IdGiven(s: string)
    requires s == ""
    ensures !ValidId(s)
  {
  }

  // ---------- what a refusal says ----------

  function Credential(c: Credentials, field: string): string {
    if field == "uuid" then c.uuid
    else if field == "public_key" then c.publicKey
    else if field == "short_id" then c.shortID
    else if field == "sni" then c.sni
    else if field == "utls_fingerprint" then c.utlsFingerprint
    else if field == "password" then c.password
    else if field == "obfs_password" then c.obfsPassword
    else "?"
  }

  /** The complaint is true of the raw profile. */
  predicate TrueOf(problem: Problem, p: Profile, now: int) {
    match problem
    case MissingId => Word(p.id) == ""
    case InvalidId => !ValidId(Word(p.id))
    case UnsupportedFamily => Word(p.family) != "hy2" && !SupportedFamily(Word(p.family))
    case MissingHost => Word(p.endpoint.host) == ""
    case InvalidPort => p.endpoint.port < 1 || p.endpoint.port > 65535
    case InvalidIpVersion => Word(p.endpoint.ipVersion) != "v4" && Word(p.endpoint.ipVersion) != "v6" && Word(p.endpoint.ipVersion) != "dual"
    case InvalidTemplateRef => !ValidReference(Trim(p.templateRef))
    case MissingTransport => Word(p.capabilities.transport) == ""
    case InvalidTransport => !ValidTransport(NormalizeFamily(p.family), Word(p.capabilities.transport))
    case InvalidBandwidthClass => !ValidBandwidth(Word(p.capabilities.bandwidthClass))
    case InvalidTags => exists t :: t in p.capabilities.dpiResistanceTags && !ValidTag(ToLower(Trim(t)))
    case MissingSource => !Given(p.source.source)
    case InvalidTrustLevel => p.source.trustLevel < 1 || p.source.trustLevel > 100
    case InvalidImportedAt => OrNow(p.source.importedAt, now) < 0
    case MissingCredential(field) => !Given(Credential(p.credentials, field))
    case InvalidCreatedAt => OrNow(p.createdAt, now) < 0
    case ExpiredProfile => p.expiresAt != 0 && p.expiresAt <= now
    case InvalidExpiresAt => p.expiresAt != 0 && p.expiresAt < OrNow(p.createdAt, now)
    case InvalidPriority => p.priority < -100 || p.priority > 100
  }

  lemma CredentialMissing(f: Family, c: Credentials)
    requires SupportedFamily(f) && CheckCredentials(f, c).Bad?
    ensures CheckCredentials(f, c).problem.MissingCredential? && !Given(Credential(c, CheckCredentials(f, c).problem.field))
  {
    FieldNames(c);
    hide Credential, Trim;
  }

  lemma FieldNames(c: Credentials)
    ensures Credential(c, "uuid") == c.uuid && Credential(c, "public_key") == c.publicKey && Credential(c, "short_id") == c.shortID
    ensures Credential(c, "sni") == c.sni && Credential(c, "utls_fingerprint") == c.utlsFingerprint
    ensures Credential(c, "password") == c.password && Credential(c, "obfs_password") == c.obfsPassword
  {
    assert "uuid"[1] == 'u' && "public_key"[1] == 'u' && "public_key"[0] == 'p' && "short_id"[1] == 'h' && "sni"[1] == 'n';
    assert "utls_fingerprint"[1] == 't' && "password"[1] == 'a' && "obfs_password"[0] == 'o';
  }

  lemma UnsupportedMeans(f: Family)
    requires NormalizeFamily(f) == ""
    ensures Word(f) != "hy2" && !SupportedFamily(Word(f))
  {
    NormalizedFamily(f);
    hide NormalizeFamily, Word;
    assert FAMILY_HYSTERIA2 != "" && FAMILY_REALITY != "" && FAMILY_TUIC != "" && FAMILY_SHADOWTLS != "" && FAMILY_DNS != "";
  }

  lemma SomeInvalidTag(tags: seq<string>)
    requires !AllTagsValid(WireTags(tags))
    ensures exists t :: t in tags && !ValidTag(ToLower(Trim(t)))
  {
    TagsAccepted(tags);
    hide AllTagsValid, WireTags, ValidTag, ToLower, Trim;
  }

  lemma IdentityTrue(p: Profile, q: Profile, now: int)
    requires q.id == Word(p.id) && q.family == NormalizeFamily(p.family) && CheckIdentity(q).Bad?
    ensures TrueOf(CheckIdentity(q).problem, p, now)
  {
    IdsMatch(q.id);
    hide IdPattern, ValidId, Word, NormalizeFamily, SupportedFamily;
    if q.family == "" {
      UnsupportedMeans(p.family);
    }
  }

  lemma EndpointTrue(p: Profile, q: Profile, now: int)
    requires q.endpoint.host == Word(p.endpoint.host) && q.endpoint.port == p.endpoint.port
    requires q.endpoint.ipVersion == (if Word(p.endpoint.ipVersion) == "" then "dual" else Word(p.endpoint.ipVersion))
    requires CheckEndpoint(q).Bad?
    ensures TrueOf(CheckEndpoint(q).problem, p, now)
  {
    hide Word;
  }

  lemma CapabilitiesTrue(p: Profile, q: Profile, now: int)
    requires q.templateRef == Trim(p.templateRef) && q.family == NormalizeFamily(p.family)
    requires q.capabilities == Capabilities(Word(p.capabilities.transport), WireTags(p.capabilities.dpiResistanceTags),
                                            Word(p.capabilities.bandwidthClass))
    requires CheckCapabilities(q).Bad?
    ensures TrueOf(CheckCapabilities(q).problem, p, now)
  {
    ReferenceAccepted(q.templateRef);
    hide Word, Trim, NormalizeFamily, WireTags, AllTagsValid, ValidTag, ValidTransport, ValidBandwidth, BadTemplateRef, ValidReference;
    if !AllTagsValid(q.capabilities.dpiResistanceTags) {
      SomeInvalidTag(p.capabilities.dpiResistanceTags);
    }
  }

  lemma SourceTrue(p: Profile, q: Profile, now: int)
    requires SupportedFamily(q.family) && q.credentials == p.credentials
    requires q.source.source == Trim(p.source.source) && q.source.trustLevel == p.source.trustLevel
    requires q.source.importedAt == OrNow(p.source.importedAt, now) && CheckSource(q).Bad?
    ensures TrueOf(CheckSource(q).problem, p, now)
  {
    hide Trim, CheckCredentials, SupportedFamily, Credential;
    if CheckCredentials(q.family, q.credentials).Bad? {
      CredentialMissing(q.family, q.credentials);
    }
  }

  lemma TimesTrue(p: Profile, q: Profile, now: int)
    requires q.createdAt == OrNow(p.createdAt, now) && q.expiresAt == p.expiresAt && q.priority == p.priority
    requires CheckTimes(q, now).Bad?
    ensures TrueOf(CheckTimes(q, now).problem, p, now)
  {
  }

  /** A refusal never blames a profile for something that is not so. */
  lemma RefusedTruly(p: Profile, now: int)
    requires Normal(p, now).Refused?
    ensures TrueOf(Normal(p, now).problem, p, now)
  {
    var q := Canonical(p, now);
    CanonicalFields(p, now);
    FamilySupported(p.family);
    assert CheckIdentity(q).Fine? ==> q.family != "";
    assert forall s :: Word(s) == Clean(s);
    hide Canonical, Clean, Word, Trim, WireTags, NormalizeFamily, SupportedFamily, TrueOf;
    hide CheckIdentity, CheckEndpoint, CheckCapabilities, CheckSource, CheckTimes;
    if CheckIdentity(q).Bad? {
      IdentityTrue(p, q, now);
    } else if CheckEndpoint(q).Bad? {
      EndpointTrue(p, q, now);
    } else if CheckCapabilities(q).Bad? {
      CapabilitiesTrue(p, q, now);
    } else if CheckSource(q).Bad? {
      SourceTrue(p, q, now);
    } else {
      TimesTrue(p, q, now);
    }
  }
}
