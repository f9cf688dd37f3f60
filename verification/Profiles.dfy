/** The profile record (pkg/profile/profile.go) and its normalisation for the wire
    (pkg/profile/normalize.go). */
module Profiles {
  import opened Text
  import Decimal

  type Family = string

  const FAMILY_REALITY: Family := "reality"
  const FAMILY_HYSTERIA2: Family := "hysteria2"
  const FAMILY_TUIC: Family := "tuic"
  const FAMILY_SHADOWTLS: Family := "shadowtls"
  const FAMILY_DNS: Family := "dns_tunnel"

  datatype Endpoint = Endpoint(host: string, port: int, ipVersion: string)

  datatype Capabilities = Capabilities(transport: string, dpiResistanceTags: seq<string>, bandwidthClass: string)

  datatype Credentials = Credentials(
    uuid: string, password: string, publicKey: string, shortID: string,
    sni: string, utlsFingerprint: string, obfsPassword: string)

  datatype Health = Health(
    score: real, successEWMA: real, medianHandshakeMs: int, lastOkAt: int, lastFailAt: int,
    lastFailReason: string, cooldownUntil: int, failureCount: int, consecutiveFails: int)

  const NO_HEALTH := Health(0.0, 0.0, 0, 0, 0, "", 0, 0, 0)

  datatype SourceInfo = SourceInfo(source: string, trustLevel: int, importedAt: int, publisherKey: string)

  datatype MutationPolicy = MutationPolicy(allowedSets: seq<string>, maxMutationsPerHour: int)

  datatype Profile = Profile(
    id: string, family: Family, enabled: bool, manualDisabled: bool,
    createdAt: int, expiresAt: int, priority: int, templateRef: string,
    endpoint: Endpoint, capabilities: Capabilities, credentials: Credentials,
    source: SourceInfo, notes: string, mutationPolicy: MutationPolicy, health: Health)

  // ---------- endpoint keys ----------

  /** fmt.Sprintf("%s|%s|%d", family, host, port), as bundle selection and import both compute it. */
  function EndpointKey(p: Profile): string {
    p.family + "|" + p.endpoint.host + "|" + Decimal.Print(p.endpoint.port)
  }

  predicate SameEndpoint(p: Profile, q: Profile) {
    p.family == q.family && p.endpoint.host == q.endpoint.host && p.endpoint.port == q.endpoint.port
  }

  lemma PortHasNoSeparator(port: int)
    ensures '|' !in Decimal.Print(port)
  {
    Decimal.PrintCharacters(port);
  }

  lemma LastSeparatorAt(s: string, c: char, a: string)
    requires c !in a
    ensures (s + [c] + a)[|s|] == c
    ensures forall j :: |s| < j < |s + [c] + a| ==> (s + [c] + a)[j] != c
    ensures (s + [c] + a)[..|s|] == s && (s + [c] + a)[|s| + 1..] == a
  {
    forall j | |s| < j < |s + [c] + a| ensures (s + [c] + a)[j] != c {
      assert (s + [c] + a)[j] == a[j - |s| - 1];
    }
  }

  /** Two texts cut at the last separator agree in both parts. */
  lemma LastCutInjective(s: string, c: char, a: string, t: string, b: string)
    requires c !in a && c !in b
    requires s + [c] + a == t + [c] + b
    ensures s == t && a == b
  {
    LastSeparatorAt(s, c, a);
    LastSeparatorAt(t, c, b);
    assert |s| == |t|;
  }

  function HostAndPort(p: Profile): string {
    p.endpoint.host + "|" + Decimal.Print(p.endpoint.port)
  }

  lemma KeyParts(p: Profile)
    ensures EndpointKey(p) == p.family + "|" + HostAndPort(p)
  {
  }

  lemma HostAndPortInjective(p: Profile, q: Profile)
    requires HostAndPort(p) == HostAndPort(q)
    ensures p.endpoint.host == q.endpoint.host && p.endpoint.port == q.endpoint.port
  {
    hide Decimal.Print;
    PortHasNoSeparator(p.endpoint.port);
    PortHasNoSeparator(q.endpoint.port);
    LastCutInjective(p.endpoint.host, '|', Decimal.Print(p.endpoint.port), q.endpoint.host, Decimal.Print(q.endpoint.port));
    Decimal.PrintInjective(p.endpoint.port, q.endpoint.port);
  }

  /** Keys determine endpoints as long as family names are free of the separator. */
  lemma EndpointKeyInjective(p: Profile, q: Profile)
    requires '|' !in p.family && '|' !in q.family
    ensures EndpointKey(p) == EndpointKey(q) <==> SameEndpoint(p, q)
  {
    if EndpointKey(p) == EndpointKey(q) {
      hide EndpointKey, HostAndPort;
      KeyParts(p);
      KeyParts(q);
      CutInjective(p.family, '|', HostAndPort(p), q.family, HostAndPort(q));
      HostAndPortInjective(p, q);
    }
  }
}
