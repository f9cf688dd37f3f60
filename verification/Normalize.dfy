/** Normalisation of a profile for distribution (pkg/profile/normalize.go). */
module Normalize {
  import opened Text
  import opened Sorting
  import opened Profiles

  datatype Problem =
    | MissingId | InvalidId | UnsupportedFamily | MissingHost | InvalidPort | InvalidIpVersion
    | InvalidTemplateRef | MissingTransport | InvalidTransport | InvalidBandwidthClass | InvalidTags
    | MissingSource | InvalidTrustLevel | InvalidImportedAt | MissingCredential(field: string)
    | InvalidCreatedAt | ExpiredProfile | InvalidExpiresAt | InvalidPriority

  datatype NormalizeResult = Normalized(profile: Profile) | Refused(problem: Problem)

  datatype Check = Fine | Bad(problem: Problem)

  // ---------- the pieces ----------

  /** `strings.TrimSpace(strings.ToLower(s))`, and by LowerTrim also the other way round. */
  function Clean(s: string): string {
    Trim(ToLower(s))
  }

  predicate LowerAlnum(c: char) {
    'a' <= c <= 'z' || '0' <= c <= '9'
  }

  /** ^[a-z0-9][a-z0-9._-]{0,127}$ */
  predicate IdPattern(s: string) {
    && 1 <= |s| <= 128
    && LowerAlnum(s[0])
    && forall i :: 1 <= i < |s| ==> LowerAlnum(s[i]) || s[i] == '.' || s[i] == '_' || s[i] == '-'
  }

  /** ^[a-z0-9_]{1,64}$ */
  predicate TagPattern(s: string) {
    1 <= |s| <= 64 && forall i :: 0 <= i < |s| ==> LowerAlnum(s[i]) || s[i] == '_'
  }

  /** The canonical family name, the empty string for an unsupported one. */
  function NormalizeFamily(f: Family): Family {
    var s := Clean(f);
    if s == FAMILY_REALITY then FAMILY_REALITY
    else if s == "hy2" || s == FAMILY_HYSTERIA2 then FAMILY_HYSTERIA2
    else if s == FAMILY_TUIC then FAMILY_TUIC
    else if s == FAMILY_SHADOWTLS then FAMILY_SHADOWTLS
    else if s == FAMILY_DNS then FAMILY_DNS
    else ""
  }

  predicate SupportedFamily(f: Family) {
    f == FAMILY_REALITY || f == FAMILY_HYSTERIA2 || f == FAMILY_TUIC || f == FAMILY_SHADOWTLS || f == FAMILY_DNS
  }

  predicate ValidTransport(f: Family, transport: string) {
    if f == FAMILY_REALITY || f == FAMILY_SHADOWTLS then transport == "tcp"
    else if f == FAMILY_HYSTERIA2 || f == FAMILY_TUIC then transport == "udp" || transport == "quic"
    else if f == FAMILY_DNS then transport == "udp" || transport == "tcp"
    else false
  }

  predicate ContainsDots(s: string) {
    exists i :: 0 <= i < |s| - 1 && s[i] == '.' && s[i + 1] == '.'
  }

  predicate BadTemplateRef(s: string) {
    ContainsDots(s) || '/' in s || '\\' in s
  }

  function CheckCredentials(f: Family, c: Credentials): Check {
    if f == FAMILY_REALITY then
      if Blank(c.uuid) then Bad(MissingCredential("uuid"))
      else if Blank(c.publicKey) then Bad(MissingCredential("public_key"))
      else if Blank(c.shortID) then Bad(MissingCredential("short_id"))
      else if Blank(c.sni) then Bad(MissingCredential("sni"))
      else if Blank(c.utlsFingerprint) then Bad(MissingCredential("utls_fingerprint"))
      else Fine
    else if f == FAMILY_HYSTERIA2 then
      if Blank(c.password) then Bad(MissingCredential("password"))
      else if Blank(c.obfsPassword) then Bad(MissingCredential("obfs_password"))
      else if Blank(c.sni) then Bad(MissingCredential("sni"))
      else Fine
    else if f == FAMILY_TUIC then
      if Blank(c.uuid) then Bad(MissingCredential("uuid"))
      else if Blank(c.password) then Bad(MissingCredential("password"))
      else if Blank(c.sni) then Bad(MissingCredential("sni"))
      else Fine
    else if f == FAMILY_SHADOWTLS || f == FAMILY_DNS then Fine
    else Bad(UnsupportedFamily)
  }

  // ---------- tags ----------

  /** The tags that are not blank, trimmed and lower-cased, in their order. */
  function CleanTags(tags: seq<string>): seq<string> {
    if tags == [] then []
    else
      var front := CleanTags(tags[..|tags| - 1]);
      var t := ToLower(Trim(tags[|tags| - 1]));
      if t == "" then front else front + [t]
  }

  /** Drops an entry that equals the one before it. */
  function DropRepeats(s: seq<string>): (r: seq<string>)
    ensures s != [] ==> r != [] && r[|r| - 1] == s[|s| - 1]
    ensures s == [] ==> r == []
  {
    if s == [] then []
    else
      var front := DropRepeats(s[..|s| - 1]);
      if front != [] && front[|front| - 1] == s[|s| - 1] then front else front + [s[|s| - 1]]
  }

  /** Sorting comes first, lower-casing second: the result need not be sorted. */
  function WireTags(tags: seq<string>): seq<string> {
    DropRepeats(CleanTags(StableSort(Leq, tags)))
  }

  lemma NextTag(tags: seq<string>, i: nat)
    requires i < |tags|
    ensures var out, t := DropRepeats(CleanTags(tags[..i])), ToLower(Trim(tags[i]));
            DropRepeats(CleanTags(tags[..i + 1])) ==
            if t == "" || (out != [] && out[|out| - 1] == t) then out else out + [t]
  {
    hide ToLower, Trim;
    assert tags[..i + 1][..i] == tags[..i];
    var front, t := CleanTags(tags[..i]), ToLower(Trim(tags[i]));
    assert (front + [t])[..|front|] == front;
  }

  method UniqueSortedTags(tags: seq<string>) returns (out: seq<string>)
    ensures out == DropRepeats(CleanTags(tags))
  {
    hide ToLower, Trim;
    out := [];
    for i := 0 to |tags|
      invariant out == DropRepeats(CleanTags(tags[..i]))
    {
      hide DropRepeats, CleanTags;
      NextTag(tags, i);
      var t := ToLower(Trim(tags[i]));
      if t == "" {
        continue;
      }
      if out == [] || out[|out| - 1] != t {
        out := out + [t];
      }
    }
    assert tags[..|tags|] == tags;
  }

  // ---------- the whole record ----------

  // The rewrites, stage by stage; whether the result is accepted is decided below.

  function CleanIdentity(p: Profile): Profile {
    p.(id := Clean(p.id), family := NormalizeFamily(p.family))
  }

  function CleanEndpoint(p: Profile): Profile {
    var v := Clean(p.endpoint.ipVersion);
    p.(endpoint := Endpoint(Clean(p.endpoint.host), p.endpoint.port, if v == "" then "dual" else v))
  }

  function CleanCapabilities(p: Profile): Profile {
    p.(templateRef := Trim(p.templateRef),
       capabilities := Capabilities(Clean(p.capabilities.transport), WireTags(p.capabilities.dpiResistanceTags),
                                    Clean(p.capabilities.bandwidthClass)))
  }

  function CleanSource(p: Profile, now: int): Profile {
    p.(source := p.source.(source := Trim(p.source.source),
                           importedAt := if p.source.importedAt == 0 then now else p.source.importedAt))
  }

  function CleanTimes(p: Profile, now: int): Profile {
    p.(createdAt := if p.createdAt == 0 then now else p.createdAt)
  }

  function CleanStatus(p: Profile): Profile {
    p.(enabled := true, manualDisabled := false, health := NO_HEALTH, notes := Trim(p.notes))
  }

  /** The canonical record, whether or not it will be accepted. */
  function Canonical(p: Profile, now: int): Profile {
    CleanStatus(CleanTimes(CleanSource(CleanCapabilities(CleanEndpoint(CleanIdentity(p))), now), now))
  }

  function CheckIdentity(q: Profile): Check {
    if q.id == "" then Bad(MissingId)
    else if !IdPattern(q.id) then Bad(InvalidId)
    else if q.family == "" then Bad(UnsupportedFamily)
    else Fine
  }

  function CheckEndpoint(q: Profile): Check {
    if q.endpoint.host == "" then Bad(MissingHost)
    else if q.endpoint.port <= 0 || q.endpoint.port > 65535 then Bad(InvalidPort)
    else if q.endpoint.ipVersion != "v4" && q.endpoint.ipVersion != "v6" && q.endpoint.ipVersion != "dual" then Bad(InvalidIpVersion)
    else Fine
  }

  predicate ValidBandwidth(s: string) {
    s == "" || s == "low" || s == "medium" || s == "high"
  }

  predicate AllTagsValid(tags: seq<string>) {
    forall i :: 0 <= i < |tags| ==> TagPattern(tags[i])
  }

  function CheckCapabilities(q: Profile): Check {
    if BadTemplateRef(q.templateRef) then Bad(InvalidTemplateRef)
    else if q.capabilities.transport == "" then Bad(MissingTransport)
    else if !ValidTransport(q.family, q.capabilities.transport) then Bad(InvalidTransport)
    else if !ValidBandwidth(q.capabilities.bandwidthClass) then Bad(InvalidBandwidthClass)
    else if !AllTagsValid(q.capabilities.dpiResistanceTags) then Bad(InvalidTags)
    else Fine
  }

  function CheckSource(q: Profile): Check {
    if q.source.source == "" then Bad(MissingSource)
    else if q.source.trustLevel <= 0 || q.source.trustLevel > 100 then Bad(InvalidTrustLevel)
    else if q.source.importedAt < 0 then Bad(InvalidImportedAt)
    else CheckCredentials(q.family, q.credentials)
  }

  function CheckTimes(q: Profile, now: int): Check {
    if q.createdAt < 0 then Bad(InvalidCreatedAt)
    else if q.expiresAt != 0 && q.expiresAt <= now then Bad(ExpiredProfile)
    else if q.expiresAt != 0 && q.expiresAt < q.createdAt then Bad(InvalidExpiresAt)
    else if q.priority < -100 || q.priority > 100 then Bad(InvalidPriority)
    else Fine
  }

  /** The first thing wrong with a canonical record, in the order the source looks. */
  function FirstProblem(q: Profile, now: int): Check {
    if CheckIdentity(q).Bad? then CheckIdentity(q)
    else if CheckEndpoint(q).Bad? then CheckEndpoint(q)
    else if CheckCapabilities(q).Bad? then CheckCapabilities(q)
    else if CheckSource(q).Bad? then CheckSource(q)
    else CheckTimes(q, now)
  }

  function Normal(p: Profile, now: int): NormalizeResult {
    var q := Canonical(p, now);
    match FirstProblem(q, now)
    case Fine => Normalized(q)
    case Bad(problem) => Refused(problem)
  }

  // ---------- the checks and rewrites in the order of the source ----------

  method IdentityStage(profile: Profile) returns (p: Profile, c: Check)
    ensures c == CheckIdentity(CleanIdentity(profile))
    ensures c.Fine? ==> p == CleanIdentity(profile)
  {
    hide Clean, IdPattern, NormalizeFamily;
    p := profile;
    p := p.(id := Clean(p.id));
    if p.id == "" {
      return p, Bad(MissingId);
    }
    if !IdPattern(p.id) {
      return p, Bad(InvalidId);
    }
    p := p.(family := NormalizeFamily(p.family));
    if p.family == "" {
      return p, Bad(UnsupportedFamily);
    }
    return p, Fine;
  }

  method EndpointStage(profile: Profile) returns (p: Profile, c: Check)
    ensures c == CheckEndpoint(CleanEndpoint(profile))
    ensures c.Fine? ==> p == CleanEndpoint(profile)
  {
    hide Clean;
    p := profile;
    p := p.(endpoint := p.endpoint.(host := Clean(p.endpoint.host)));
    if p.endpoint.host == "" {
      return p, Bad(MissingHost);
    }
    if p.endpoint.port <= 0 || p.endpoint.port > 65535 {
      return p, Bad(InvalidPort);
    }
    p := p.(endpoint := p.endpoint.(ipVersion := Clean(p.endpoint.ipVersion)));
    if p.endpoint.ipVersion == "" {
      p := p.(endpoint := p.endpoint.(ipVersion := "dual"));
    }
    if p.endpoint.ipVersion != "v4" && p.endpoint.ipVersion != "v6" && p.endpoint.ipVersion != "dual" {
      return p, Bad(InvalidIpVersion);
    }
    return p, Fine;
  }

  method CapabilitiesStage(profile: Profile) returns (p: Profile, c: Check)
    ensures c == CheckCapabilities(CleanCapabilities(profile))
    ensures c.Fine? ==> p == CleanCapabilities(profile)
  {
    hide Clean, Trim, WireTags, BadTemplateRef, ValidTransport, ValidBandwidth, AllTagsValid;
    p := profile;
    p := p.(templateRef := Trim(p.templateRef));
    if BadTemplateRef(p.templateRef) {
      return p, Bad(InvalidTemplateRef);
    }
    p := p.(capabilities := p.capabilities.(transport := Clean(p.capabilities.transport)));
    if p.capabilities.transport == "" {
      return p, Bad(MissingTransport);
    }
    if !ValidTransport(p.family, p.capabilities.transport) {
      return p, Bad(InvalidTransport);
    }
    p := p.(capabilities := p.capabilities.(bandwidthClass := Clean(p.capabilities.bandwidthClass)));
    if !ValidBandwidth(p.capabilities.bandwidthClass) {
      return p, Bad(InvalidBandwidthClass);
    }
    var tags := WireTagsOf(p.capabilities.dpiResistanceTags);
    p := p.(capabilities := p.capabilities.(dpiResistanceTags := tags));
    var valid := TagsValid(tags);
    if !valid {
      return p, Bad(InvalidTags);
    }
    return p, Fine;
  }

  method SourceStage(profile: Profile, now: int) returns (p: Profile, c: Check)
    ensures c == CheckSource(CleanSource(profile, now))
    ensures c.Fine? ==> p == CleanSource(profile, now)
  {
    hide Trim, CheckCredentials;
    p := profile;
    p := p.(source := p.source.(source := Trim(p.source.source)));
    if p.source.source == "" {
      return p, Bad(MissingSource);
    }
    if p.source.trustLevel <= 0 || p.source.trustLevel > 100 {
      return p, Bad(InvalidTrustLevel);
    }
    if p.source.importedAt == 0 {
      p := p.(source := p.source.(importedAt := now));
    }
    if p.source.importedAt < 0 {
      return p, Bad(InvalidImportedAt);
    }
    return p, CheckCredentials(p.family, p.credentials);
  }

  method TimesStage(profile: Profile, now: int) returns (p: Profile, c: Check)
    ensures c == CheckTimes(CleanTimes(profile, now), now)
    ensures c.Fine? ==> p == CleanTimes(profile, now)
  {
    p := profile;
    if p.createdAt == 0 {
      p := p.(createdAt := now);
    }
    if p.createdAt < 0 {
      return p, Bad(InvalidCreatedAt);
    }
    if p.expiresAt != 0 {
      if p.expiresAt <= now {
        return p, Bad(ExpiredProfile);
      }
      if p.expiresAt < p.createdAt {
        return p, Bad(InvalidExpiresAt);
      }
    }
    if p.priority < -100 || p.priority > 100 {
      return p, Bad(InvalidPriority);
    }
    return p, Fine;
  }

  lemma StagesIndependent(p: Profile, now: int)
    ensures var a := CleanIdentity(p);
            var b := CleanEndpoint(a);
            var c := CleanCapabilities(b);
            var d := CleanSource(c, now);
            var e := CleanTimes(d, now);
            var q := CleanStatus(e);
            && CheckIdentity(q) == CheckIdentity(a) && CheckEndpoint(q) == CheckEndpoint(b)
            && CheckCapabilities(q) == CheckCapabilities(c) && CheckSource(q) == CheckSource(d)
            && CheckTimes(q, now) == CheckTimes(e, now)
  {
    hide Clean, Trim, NormalizeFamily, WireTags, IdPattern, BadTemplateRef, ValidTransport, ValidBandwidth, AllTagsValid, CheckCredentials;
  }

  method NormalizeForWire(profile: Profile, now: int) returns (r: NormalizeResult)
    ensures r == Normal(profile, now)
  {
    StagesIndependent(profile, now);
    hide CleanIdentity, CleanEndpoint, CleanCapabilities, CleanSource, CleanTimes;
    hide CheckIdentity, CheckEndpoint, CheckCapabilities, CheckSource, CheckTimes;
    var p, c := IdentityStage(profile);
    if c.Fine? {
      p, c := EndpointStage(p);
    }
    if c.Fine? {
      p, c := CapabilitiesStage(p);
    }
    if c.Fine? {
      p, c := SourceStage(p, now);
    }
    if c.Fine? {
      p, c := TimesStage(p, now);
    }
    if c.Bad? {
      return Refused(c.problem);
    }
    return Normalized(CleanStatus(p));
  }

  method TagsValid(tags: seq<string>) returns (valid: bool)
    ensures valid <==> AllTagsValid(tags)
  {
    hide TagPattern;
    for i := 0 to |tags|
      invariant forall j :: 0 <= j < i ==> TagPattern(tags[j])
    {
      if !TagPattern(tags[i]) {
        return false;
      }
    }
    return true;
  }

  method WireTagsOf(tags: seq<string>) returns (out: seq<string>)
    ensures out == WireTags(tags)
  {
    out := UniqueSortedTags(StableSort(Leq, tags));
  }
}
