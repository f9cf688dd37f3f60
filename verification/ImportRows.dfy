/** What the profile store holds after an import, field by field, in terms of the bundle. */
module ImportRows {
  import opened Text
  import opened Profiles
  import opened Normalize
  import opened NormalizeAcceptance
  import opened Import
  import opened ImportProofs

  // ---------- the surviving rows ----------

  /** `part` is what is left of `rows` when the rows at other places than `places` are taken out. */
  ghost predicate PartAt(part: seq<Profile>, rows: seq<Profile>, places: seq<nat>) {
    && |places| == |part|
    && (forall i :: 0 <= i < |part| ==> places[i] < |rows| && part[i] == rows[places[i]])
    && (forall i, j :: 0 <= i < j < |part| ==> places[i] < places[j])
  }

  ghost predicate AllUnrevoked(rows: seq<Profile>, revocations: seq<string>, places: seq<nat>) {
    forall k: nat :: k < |rows| ==> (k in places <==> rows[k].id !in revocations)
  }

  lemma PartSnoc(part: seq<Profile>, rows: seq<Profile>, places: seq<nat>, p: Profile)
    requires PartAt(part, rows, places)
    ensures PartAt(part, rows + [p], places) && PartAt(part + [p], rows + [p], places + [|rows|])
  {
  }

  lemma UnrevokedSnoc(rows: seq<Profile>, revocations: seq<string>, places: seq<nat>, p: Profile)
    requires AllUnrevoked(rows, revocations, places) && forall k :: k in places ==> k < |rows|
    ensures AllUnrevoked(rows + [p], revocations, if p.id in revocations then places else places + [|rows|])
  {
    var longer := rows + [p];
    assert longer[|rows|] == p && forall k: nat :: k < |rows| ==> longer[k] == rows[k];
    assert forall k: nat :: k < |rows| ==> (k in places + [|rows|] <==> k in places);
  }

  /** The rows whose IDs are not revoked stay, unchanged and in their order. */
  lemma {:induction false} KeptPlaces(rows: seq<Profile>, revocations: seq<string>) returns (places: seq<nat>)
    ensures PartAt(Kept(rows, revocations), rows, places) && AllUnrevoked(rows, revocations, places)
    ensures forall k :: k in places ==> k < |rows|
  {
    if rows == [] {
      places := [];
    } else {
      hide PartAt, AllUnrevoked;
      var n := |rows| - 1;
      var front, p := rows[..n], rows[n];
      var before := KeptPlaces(front, revocations);
      PartSnoc(Kept(front, revocations), front, before, p);
      UnrevokedSnoc(front, revocations, before, p);
      assert rows == front + [p];
      places := if p.id in revocations then before else before + [n];
    }
  }

  // ---------- the new rows ----------

  lemma {:induction false} NewsAreRows(kept: seq<Profile>, profiles: seq<Profile>, now: int)
    requires Gather(kept, profiles, now).Gathered?
    ensures Gather(kept, profiles, now).news == Rows(profiles, now) && AllNormal(profiles, now)
    decreases |profiles|
  {
    hide GatherOne, Row, Normal;
    if profiles != [] {
      var n := |profiles| - 1;
      var front := Gather(kept, profiles[..n], now);
      NewsAreRows(kept, profiles[..n], now);
      GatherOneCases(kept, front.news, profiles[n], now);
      RowsSnoc(profiles, n, now);
    }
  }

  /** The row that stands in the store for the profile `p` of the bundle. */
  predicate StoredFor(r: Profile, p: Profile, now: int) {
    && r.id == Trim(ToLower(p.id)) && r.family == NormalizeFamily(p.family) && r.family != ""
    && r.credentials == p.credentials && r.priority == p.priority && r.expiresAt == p.expiresAt
    && r.mutationPolicy == p.mutationPolicy
    && r.source.publisherKey == p.source.publisherKey && r.source.trustLevel == p.source.trustLevel
    && r.source.source == Trim(p.source.source) && r.source.importedAt == OrNow(p.source.importedAt, now)
    && r.createdAt == OrNow(p.createdAt, now) && r.templateRef == Trim(p.templateRef) && r.notes == Trim(p.notes)
    && r.endpoint.host == Trim(ToLower(p.endpoint.host)) && r.endpoint.port == p.endpoint.port
    && r.endpoint.ipVersion == (if Trim(ToLower(p.endpoint.ipVersion)) == "" then "dual" else Trim(ToLower(p.endpoint.ipVersion)))
    && r.capabilities.transport == Trim(ToLower(p.capabilities.transport))
    && r.capabilities.bandwidthClass == Trim(ToLower(p.capabilities.bandwidthClass))
    && r.capabilities.dpiResistanceTags == WireTags(p.capabilities.dpiResistanceTags)
    && r.enabled && !r.manualDisabled
    && r.health == Health(0.0, 0.5, 0, now, 0, "", 0, 0, 0)
  }

  lemma RowStored(p: Profile, now: int)
    requires Normal(p, now).Normalized?
    ensures StoredFor(Row(p, now), p, now)
  {
    NormalIsCanonical(p, now);
    CanonicalFields(p, now);
    CleanMeans(p.id);
    CleanMeans(p.endpoint.host);
    CleanMeans(p.endpoint.ipVersion);
    CleanMeans(p.capabilities.transport);
    CleanMeans(p.capabilities.bandwidthClass);
    hide Normal, Canonical, Clean, Trim, ToLower, NormalizeFamily, WireTags;
  }

  /** After a successful import the store holds the rows that were not revoked, unchanged and in
      their order, and after them one row for every profile of the bundle. */
  lemma ImportedRows(s: Stores, payload: Payload, now: int, access: Access) returns (places: seq<nat>)
    requires Processed(s, Given(payload), now, access).1.Imported?
    ensures var rows, n := Processed(s, Given(payload), now, access).0.profiles, |places|;
            var earlier := if access.load then s.profiles else [];
            && |rows| == n + |payload.profiles|
            && PartAt(rows[..n], earlier, places) && AllUnrevoked(earlier, payload.revocations, places)
            && forall i :: 0 <= i < |payload.profiles| ==> StoredFor(rows[n + i], payload.profiles[i], now)
  {
    hide *;
    var kept := KeptRows(s, payload, access);
    places := KeptPlaces(Loaded(s, access), payload.revocations);
    StoredRows(s, payload, now, access);
    ConcatenatedRows(kept, payload.profiles, now);
    LoadedRows(s, payload, access);
    PlacesLength(kept, Loaded(s, access), places);
  }

  lemma StoredRows(s: Stores, payload: Payload, now: int, access: Access)
    requires Processed(s, Given(payload), now, access).1.Imported?
    ensures AllNormal(payload.profiles, now)
    ensures Processed(s, Given(payload), now, access).0.profiles == KeptRows(s, payload, access) + Rows(payload.profiles, now)
  {
    var kept := KeptRows(s, payload, access);
    ProcessedCases(s, payload, now, access);
    assert Gather(kept, payload.profiles, now).Gathered?;
    hide Processed, Gather, SaveBoth, KeptRows, Rows, AllNormal, StorageFails, StorageError;
    NewsAreRows(kept, payload.profiles, now);
    SaveBothCases(s, kept + Rows(payload.profiles, now), payload, access);
    assert !StorageError(Imported) by { NoStorageError(); }
  }

  lemma NoStorageError()
    ensures !StorageError(Imported)
  {
  }

  lemma LoadedRows(s: Stores, payload: Payload, access: Access)
    ensures Loaded(s, access) == if access.load then s.profiles else []
    ensures KeptRows(s, payload, access) == Kept(Loaded(s, access), payload.revocations)
  {
  }

  lemma ConcatenatedRows(kept: seq<Profile>, profiles: seq<Profile>, now: int)
    requires AllNormal(profiles, now)
    ensures var rows := kept + Rows(profiles, now);
            && |rows| == |kept| + |profiles| && rows[..|kept|] == kept
            && forall i :: 0 <= i < |profiles| ==> StoredFor(rows[|kept| + i], profiles[i], now)
  {
    hide Row, StoredFor, Normal;
    forall i | 0 <= i < |profiles| ensures StoredFor((kept + Rows(profiles, now))[|kept| + i], profiles[i], now) {
      RowStored(profiles[i], now);
    }
  }

  lemma PlacesLength(part: seq<Profile>, rows: seq<Profile>, places: seq<nat>)
    requires PartAt(part, rows, places)
    ensures |places| == |part|
  {
  }

  // ---------- the templates ----------

  /** Every template of the bundle is stored and the others stay; without templates, or without a
      template store, nothing changes. */
  lemma TemplatesMerged(s: Stores, payload: Payload, now: int, access: Access, name: string)
    requires Processed(s, Given(payload), now, access).1.Imported?
    ensures var after := Processed(s, Given(payload), now, access).0.templates;
            if !s.hasTemplates || payload.templates == map[] then after == s.templates
            else if name in payload.templates then name in after && after[name] == payload.templates[name]
            else (name in after <==> access.templateLoad && name in s.templates) && (name in after ==> after[name] == s.templates[name])
  {
    ProcessedCases(s, payload, now, access);
    hide Processed, Gather, KeptRows;
  }

  // ---------- what a rejection says ----------

  /** The complaint is true of the profile `p`, with these rows stored and these before it. */
  ghost predicate TrueOfBundle(error: ImportError, kept: seq<Profile>, news: seq<Profile>, p: Profile, now: int) {
    match Normal(p, now)
    case Refused(problem) => error == ProfileInvalid(p.id, problem)
    case Normalized(q) =>
      match error
      case ConflictingId(id) => id == q.id && exists r :: r in kept && r.id == id && !SameEndpoint(r, q)
      case ConflictingDuplicate(id) => id == q.id && exists r :: r in news && r.id == id && !SameEndpoint(r, q)
      case EndpointConflict(id, owner) =>
        id == q.id && id != owner && exists r :: r in kept + news && r.id == owner && EndpointKey(r) == EndpointKey(q)
      case _ => false
  }

  lemma OneRejection(kept: seq<Profile>, news: seq<Profile>, p: Profile, now: int)
    requires GatherOne(kept, news, p, now).Rejected?
    ensures TrueOfBundle(GatherOne(kept, news, p, now).error, kept, news, p, now)
  {
    if Normal(p, now).Normalized? {
      ConflictTrue(kept, news, Normal(p, now).profile);
    }
    hide Normal, Conflicts, EndpointKey;
  }

  lemma ConflictTrue(kept: seq<Profile>, news: seq<Profile>, q: Profile)
    ensures match Conflicts(kept, news, q) {
              case Clear => true
              case Conflict(ConflictingId(id)) => id == q.id && exists r :: r in kept && r.id == id && !SameEndpoint(r, q)
              case Conflict(ConflictingDuplicate(id)) => id == q.id && exists r :: r in news && r.id == id && !SameEndpoint(r, q)
              case Conflict(EndpointConflict(id, owner)) =>
                id == q.id && id != owner && exists r :: r in kept + news && r.id == owner && EndpointKey(r) == EndpointKey(q)
              case _ => false
            }
  {
    ByIdFinds(kept, q.id);
    ByIdFinds(news, q.id);
    ByEndpointFinds(kept, EndpointKey(q));
    ByEndpointFinds(news, EndpointKey(q));
    hide EndpointKey, ById, ByEndpoint;
  }

  lemma {:induction false} GatherRejection(kept: seq<Profile>, profiles: seq<Profile>, now: int) returns (k: nat)
    requires Gather(kept, profiles, now).Rejected?
    ensures k < |profiles| && AllNormal(profiles[..k], now)
    ensures TrueOfBundle(Gather(kept, profiles, now).error, kept, Rows(profiles[..k], now), profiles[k], now)
    decreases |profiles|
  {
    hide GatherOne, AllNormal, TrueOfBundle;
    var n := |profiles| - 1;
    var front := Gather(kept, profiles[..n], now);
    if front.Rejected? {
      k := GatherRejection(kept, profiles[..n], now);
      assert profiles[..n][..k] == profiles[..k];
    } else {
      k := n;
      NewsAreRows(kept, profiles[..n], now);
      OneRejection(kept, front.news, profiles[n], now);
    }
  }

  /** A bundle that is refused for its contents is refused for its first profile that does not
      normalise or does not fit, and the error names that profile and what it collides with. */
  lemma RejectedTruly(s: Stores, payload: Payload, now: int, access: Access) returns (k: nat)
    requires Processed(s, Given(payload), now, access).1.Failed? && !StorageError(Processed(s, Given(payload), now, access).1)
    ensures k < |payload.profiles| && AllNormal(payload.profiles[..k], now)
    ensures TrueOfBundle(Processed(s, Given(payload), now, access).1.error, KeptRows(s, payload, access),
                         Rows(payload.profiles[..k], now), payload.profiles[k], now)
  {
    var kept := KeptRows(s, payload, access);
    ProcessedCases(s, payload, now, access);
    if Gather(kept, payload.profiles, now).Gathered? {
      SaveBothCases(s, kept + Gather(kept, payload.profiles, now).news, payload, access);
    }
    hide Processed, Gather, SaveBoth, KeptRows, TrueOfBundle, AllNormal;
    k := GatherRejection(kept, payload.profiles, now);
  }
}
