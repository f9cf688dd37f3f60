/** What imports keep: in every store that imports build, IDs and endpoints determine each other. */
module ImportProofs {
  import opened Profiles
  import opened Normalize
  import opened NormalizeProofs
  import opened Import
  import AdaptiveRanking
  import AdaptiveScores
  import Engine

  /** `q` has the ID of a row exactly if it has the row's endpoint. */
  ghost predicate Compatible(rows: seq<Profile>, q: Profile) {
    forall r :: r in rows ==> (r.id == q.id <==> SameEndpoint(r, q))
  }

  ghost predicate Consistent(rows: seq<Profile>) {
    forall q :: q in rows ==> Compatible(rows, q)
  }

  predicate PlainFamily(p: Profile) {
    '|' !in p.family
  }

  ghost predicate StoreOk(rows: seq<Profile>) {
    Consistent(rows) && forall r :: r in rows ==> PlainFamily(r)
  }

  // ---------- the lookup tables ----------

  lemma {:induction false} ByIdFinds(rows: seq<Profile>, id: string)
    ensures id in ById(rows) ==> ById(rows)[id] in rows && ById(rows)[id].id == id
    ensures forall r :: r in rows ==> r.id in ById(rows)
  {
    if rows != [] {
      ByIdFinds(rows[..|rows| - 1], id);
      assert rows == rows[..|rows| - 1] + [rows[|rows| - 1]];
    }
  }

  ghost predicate OwnedBy(rows: seq<Profile>, key: string, id: string) {
    exists r :: r in rows && EndpointKey(r) == key && r.id == id
  }

  lemma OwnedLonger(rows: seq<Profile>, p: Profile, key: string, id: string)
    ensures OwnedBy(rows, key, id) ==> OwnedBy(rows + [p], key, id)
    ensures OwnedBy(rows + [p], EndpointKey(p), p.id)
  {
    hide EndpointKey;
    assert p in rows + [p];
    if OwnedBy(rows, key, id) {
      var r :| r in rows && EndpointKey(r) == key && r.id == id;
      assert r in rows + [p];
    }
  }

  lemma {:induction false} ByEndpointFinds(rows: seq<Profile>, key: string)
    ensures key in ByEndpoint(rows) ==> OwnedBy(rows, key, ByEndpoint(rows)[key])
    ensures forall r :: r in rows ==> EndpointKey(r) in ByEndpoint(rows)
  {
    hide EndpointKey;
    if rows != [] {
      var front, p := rows[..|rows| - 1], rows[|rows| - 1];
      ByEndpointFinds(front, key);
      assert rows == front + [p];
      if key in ByEndpoint(front) {
        OwnedLonger(front, p, key, ByEndpoint(front)[key]);
      }
      OwnedLonger(front, p, key, p.id);
      hide OwnedBy;
    }
  }

  // ---------- the conflict checks ----------

  /** The ID check sees only the last row of an ID; in a consistent store that is enough. */
  lemma IdCheck(rows: seq<Profile>, q: Profile)
    requires StoreOk(rows)
    ensures (q.id in ById(rows) ==> SameEndpoint(ById(rows)[q.id], q))
            <==> (forall r :: r in rows && r.id == q.id ==> SameEndpoint(r, q))
  {
    ByIdFinds(rows, q.id);
    hide ById, PlainFamily;
    if q.id in ById(rows) {
      var last := ById(rows)[q.id];
      assert Compatible(rows, last);
      assert last in rows && last.id == q.id;
    }
  }

  lemma SameKeys(rows: seq<Profile>, q: Profile)
    requires StoreOk(rows) && PlainFamily(q)
    ensures forall r :: r in rows ==> (EndpointKey(r) == EndpointKey(q) <==> SameEndpoint(r, q))
  {
    hide EndpointKey, Consistent;
    forall r | r in rows ensures EndpointKey(r) == EndpointKey(q) <==> SameEndpoint(r, q) {
      EndpointKeyInjective(r, q);
    }
  }

  lemma EndpointCheck(rows: seq<Profile>, q: Profile)
    requires StoreOk(rows) && PlainFamily(q)
    ensures (EndpointKey(q) in ByEndpoint(rows) ==> ByEndpoint(rows)[EndpointKey(q)] == q.id)
            <==> (forall r :: r in rows && SameEndpoint(r, q) ==> r.id == q.id)
  {
    var key := EndpointKey(q);
    ByEndpointFinds(rows, key);
    SameKeys(rows, q);
    hide ByEndpoint, EndpointKey, PlainFamily;
    if key in ByEndpoint(rows) {
      var owner := ByEndpoint(rows)[key];
      var last :| last in rows && EndpointKey(last) == key && last.id == owner;
      hide OwnedBy;
      assert Compatible(rows, last) && SameEndpoint(last, q);
    }
  }

  /** All four checks together: no conflict is found exactly when there is none. */
  lemma ConflictsExact(kept: seq<Profile>, news: seq<Profile>, q: Profile)
    requires StoreOk(kept) && StoreOk(news) && PlainFamily(q)
    ensures Conflicts(kept, news, q).Clear? <==> Compatible(kept, q) && Compatible(news, q)
  {
    IdCheck(kept, q);
    IdCheck(news, q);
    EndpointCheck(kept, q);
    EndpointCheck(news, q);
    hide StoreOk, ById, ByEndpoint, EndpointKey;
  }

  // ---------- consistency ----------

  lemma CompatibleConcat(a: seq<Profile>, b: seq<Profile>, q: Profile)
    ensures Compatible(a + b, q) <==> Compatible(a, q) && Compatible(b, q)
  {
    assert forall r :: r in a + b <==> r in a || r in b;
  }

  lemma CompatibleSymmetric(p: Profile, q: Profile)
    ensures Compatible([p], q) <==> Compatible([q], p)
    ensures Compatible([q], q)
  {
    assert p in [p] && q in [q];
  }

  lemma ConsistentSnoc(rows: seq<Profile>, p: Profile)
    ensures Consistent(rows + [p]) <==> Consistent(rows) && Compatible(rows, p)
  {
    forall q ensures Compatible(rows + [p], q) <==> Compatible(rows, q) && Compatible([p], q) {
      CompatibleConcat(rows, [p], q);
    }
    CompatibleSymmetric(p, p);
    forall q | q in rows ensures Compatible(rows, p) ==> Compatible([p], q) {
      CompatibleSymmetric(p, q);
      if Compatible(rows, p) {
        assert q.id == p.id <==> SameEndpoint(q, p);
      }
    }
    hide Compatible;
    assert forall q :: q in rows + [p] <==> q in rows || q == p;
    if Consistent(rows + [p]) {
      assert p in rows + [p];
      assert forall q :: q in rows ==> q in rows + [p];
    }
  }

  lemma ConsistentPart(a: seq<Profile>, b: seq<Profile>)
    requires Consistent(b) && forall r :: r in a ==> r in b
    ensures Consistent(a)
  {
    forall q | q in a ensures Compatible(a, q) {
      assert Compatible(b, q);
    }
  }

  lemma {:induction false} KeptMembers(rows: seq<Profile>, revocations: seq<string>)
    ensures forall r :: r in Kept(rows, revocations) <==> r in rows && r.id !in revocations
  {
    if rows != [] {
      KeptMembers(rows[..|rows| - 1], revocations);
      assert rows == rows[..|rows| - 1] + [rows[|rows| - 1]];
    }
  }

  lemma KeptOk(rows: seq<Profile>, revocations: seq<string>)
    requires StoreOk(rows)
    ensures StoreOk(Kept(rows, revocations))
  {
    hide Consistent, PlainFamily, Kept;
    KeptMembers(rows, revocations);
    ConsistentPart(Kept(rows, revocations), rows);
  }

  // ---------- the new rows ----------

  predicate AllNormal(profiles: seq<Profile>, now: int) {
    forall i :: 0 <= i < |profiles| ==> Normal(profiles[i], now).Normalized?
  }

  function Row(p: Profile, now: int): Profile {
    match Normal(p, now)
    case Normalized(q) => Finish(q, now)
    case Refused(_) => p
  }

  function Rows(profiles: seq<Profile>, now: int): (r: seq<Profile>)
    ensures |r| == |profiles|
    ensures forall i :: 0 <= i < |profiles| ==> r[i] == Row(profiles[i], now)
  {
    seq(|profiles|, i requires 0 <= i < |profiles| => Row(profiles[i], now))
  }

  /** A new row keeps what identifies its normalised profile, and is switched on without cooldown. */
  lemma RowFacts(p: Profile, now: int)
    requires Normal(p, now).Normalized?
    ensures var q, row := Normal(p, now).profile, Row(p, now);
            && row.id == q.id && row.family == q.family && row.endpoint == q.endpoint && row.capabilities == q.capabilities
            && PlainFamily(q) && PlainFamily(row) && row.enabled && !row.manualDisabled && row.health.cooldownUntil == 0
            && row.health.successEWMA == 0.5 && row.health.lastOkAt == now && row.source.trustLevel > 0
  {
    AcceptedProfile(p, now);
    hide Normal, SupportedFamily, IdPattern, AllTagsValid;
  }

  lemma GatherOneCases(kept: seq<Profile>, news: seq<Profile>, p: Profile, now: int)
    ensures GatherOne(kept, news, p, now).Gathered? <==>
            Normal(p, now).Normalized? && Conflicts(kept, news, Normal(p, now).profile).Clear?
    ensures GatherOne(kept, news, p, now).Gathered? ==> GatherOne(kept, news, p, now).news == news + [Row(p, now)]
  {
    hide Normal, Conflicts, Finish;
  }

  /** The checks on a normalised profile decide whether its row fits in. */
  lemma ConflictsDecide(kept: seq<Profile>, news: seq<Profile>, q: Profile, row: Profile)
    requires StoreOk(kept + news) && PlainFamily(q)
    requires row.id == q.id && row.family == q.family && row.endpoint == q.endpoint
    ensures Conflicts(kept, news, q).Clear? <==> Consistent(kept + news + [row])
    ensures Conflicts(kept, news, q).Clear? ==> StoreOk(kept + news + [row])
  {
    PartsOk(kept, news);
    ConflictsExact(kept, news, q);
    SameIdentity(kept + news, q, row);
    CompatibleConcat(kept, news, q);
    ConsistentSnoc(kept + news, row);
    hide Conflicts, Consistent, Compatible, PlainFamily;
  }

  lemma GatherOneExact(kept: seq<Profile>, news: seq<Profile>, p: Profile, now: int)
    requires StoreOk(kept + news)
    ensures GatherOne(kept, news, p, now).Gathered? <==>
            Normal(p, now).Normalized? && Consistent(kept + news + [Row(p, now)])
    ensures GatherOne(kept, news, p, now).Gathered? ==>
            GatherOne(kept, news, p, now).news == news + [Row(p, now)] && StoreOk(kept + news + [Row(p, now)])
  {
    GatherOneCases(kept, news, p, now);
    hide StoreOk, Consistent, Conflicts, GatherOne;
    if Normal(p, now).Normalized? {
      RowFacts(p, now);
      hide Normal, Row;
      ConflictsDecide(kept, news, Normal(p, now).profile, Row(p, now));
    }
  }

  lemma PartsOk(kept: seq<Profile>, news: seq<Profile>)
    requires StoreOk(kept + news)
    ensures StoreOk(kept) && StoreOk(news)
  {
    hide Consistent, PlainFamily;
    ConsistentPart(kept, kept + news);
    ConsistentPart(news, kept + news);
  }

  lemma SameIdentity(rows: seq<Profile>, q: Profile, row: Profile)
    requires row.id == q.id && row.family == q.family && row.endpoint == q.endpoint
    ensures Compatible(rows, q) <==> Compatible(rows, row)
    ensures PlainFamily(row) == PlainFamily(q)
  {
  }

  lemma RowsSnoc(profiles: seq<Profile>, n: nat, now: int)
    requires |profiles| == n + 1
    ensures Rows(profiles, now) == Rows(profiles[..n], now) + [Row(profiles[n], now)]
    ensures AllNormal(profiles, now) <==> AllNormal(profiles[..n], now) && Normal(profiles[n], now).Normalized?
  {
    hide Row, Normal;
    assert forall i :: 0 <= i < n ==> profiles[..n][i] == profiles[i];
  }

  /** The bundle is accepted exactly when all its profiles normalise and the merged rows are
      consistent; the new rows are then the finished profiles in their order. */
  lemma {:induction false} GatherExact(kept: seq<Profile>, profiles: seq<Profile>, now: int)
    requires StoreOk(kept)
    ensures Gather(kept, profiles, now).Gathered? <==> AllNormal(profiles, now) && Consistent(kept + Rows(profiles, now))
    ensures Gather(kept, profiles, now).Gathered? ==>
            Gather(kept, profiles, now).news == Rows(profiles, now) && StoreOk(kept + Rows(profiles, now))
    decreases |profiles|
  {
    hide GatherOne, Row, Normal, Consistent;
    if profiles == [] {
      assert kept + Rows(profiles, now) == kept;
    } else {
      hide StoreOk;
      var n := |profiles| - 1;
      var front, p := profiles[..n], profiles[n];
      var rows := Rows(front, now);
      GatherExact(kept, front, now);
      RowsSnoc(profiles, n, now);
      assert kept + Rows(profiles, now) == kept + rows + [Row(p, now)];
      hide AllNormal, Rows;
      ConsistentSnoc(kept + rows, Row(p, now));
      if Gather(kept, front, now).Gathered? {
        GatherOneExact(kept, rows, p, now);
      }
    }
  }

  // ---------- a whole import ----------

  function KeptRows(s: Stores, payload: Payload, access: Access): seq<Profile> {
    Kept(Loaded(s, access), payload.revocations)
  }

  predicate StorageError(r: ImportResult) {
    r.Failed? && (r.error.SaveFailed? || r.error.TemplateSaveFailed?)
  }

  lemma LoadedOk(s: Stores, payload: Payload, access: Access)
    requires StoreOk(s.profiles)
    ensures StoreOk(KeptRows(s, payload, access))
  {
    KeptOk(s.profiles, payload.revocations);
    KeptOk([], payload.revocations);
  }

  /** All profiles normalise, and the merged rows are consistent. */
  ghost predicate Fits(kept: seq<Profile>, profiles: seq<Profile>, now: int) {
    AllNormal(profiles, now) && Consistent(kept + Rows(profiles, now))
  }

  predicate StorageFails(s: Stores, payload: Payload, access: Access) {
    !access.save || (s.hasTemplates && payload.templates != map[] && !access.templateSave)
  }

  /** An import is refused for its contents exactly when they do not fit; otherwise, if the stores
      can be written, the profile store is the surviving rows followed by the new ones. */
  lemma ImportExact(s: Stores, payload: Payload, now: int, access: Access)
    requires StoreOk(s.profiles)
    ensures var (after, r) := Processed(s, Given(payload), now, access);
            var kept := KeptRows(s, payload, access);
            && (r.Imported? <==> Fits(kept, payload.profiles, now) && !StorageFails(s, payload, access))
            && (StorageError(r) <==> Fits(kept, payload.profiles, now) && StorageFails(s, payload, access))
            && (r.Imported? ==> after.profiles == kept + Rows(payload.profiles, now))
  {
    var kept := KeptRows(s, payload, access);
    LoadedOk(s, payload, access);
    GatherExact(kept, payload.profiles, now);
    ContentErrors(kept, payload.profiles, now);
    ProcessedCases(s, payload, now, access);
    SaveBothCases(s, kept + Rows(payload.profiles, now), payload, access);
    hide Processed, SaveBoth, Gather, KeptRows, Rows, StoreOk, Consistent, AllNormal, StorageFails;
  }

  lemma ProcessedCases(s: Stores, payload: Payload, now: int, access: Access)
    ensures var kept := KeptRows(s, payload, access);
            var g := Gather(kept, payload.profiles, now);
            Processed(s, Given(payload), now, access) ==
            if g.Rejected? then (s, Failed(g.error)) else SaveBoth(s, kept + g.news, payload.templates, access)
  {
    hide Gather, Kept, SaveBoth;
  }

  lemma SaveBothCases(s: Stores, rows: seq<Profile>, payload: Payload, access: Access)
    ensures var (after, r) := SaveBoth(s, rows, payload.templates, access);
            if StorageFails(s, payload, access) then StorageError(r) else r.Imported? && after.profiles == rows
  {
    hide WithTemplates;
  }

  /** Errors of the profiles are never storage errors. */
  predicate ContentError(error: ImportError) {
    !error.SaveFailed? && !error.TemplateSaveFailed?
  }

  lemma OneContentError(kept: seq<Profile>, news: seq<Profile>, p: Profile, now: int)
    ensures GatherOne(kept, news, p, now).Rejected? ==> ContentError(GatherOne(kept, news, p, now).error)
  {
    hide ById, ByEndpoint, EndpointKey, Normal, Finish;
  }

  lemma {:induction false} ContentErrors(kept: seq<Profile>, profiles: seq<Profile>, now: int)
    ensures Gather(kept, profiles, now).Rejected? ==> ContentError(Gather(kept, profiles, now).error)
    decreases |profiles|
  {
    hide GatherOne, ContentError;
    if profiles != [] {
      ContentErrors(kept, profiles[..|profiles| - 1], now);
      var front := Gather(kept, profiles[..|profiles| - 1], now);
      if front.Gathered? {
        OneContentError(kept, front.news, profiles[|profiles| - 1], now);
      }
    }
  }

  lemma ProcessedOk(s: Stores, given: MaybePayload, now: int, access: Access)
    requires StoreOk(s.profiles)
    ensures StoreOk(Processed(s, given, now, access).0.profiles)
  {
    if given.Given? {
      LoadedOk(s, given.payload, access);
      GatherExact(KeptRows(s, given.payload, access), given.payload.profiles, now);
      hide Gather, Kept, Rows, StoreOk, Consistent, AllNormal;
    }
  }

  datatype ImportStep = ImportStep(given: MaybePayload, now: int, access: Access)

  function AfterImports(s: Stores, steps: seq<ImportStep>): Stores
    decreases |steps|
  {
    if steps == [] then s
    else AfterImports(Processed(s, steps[0].given, steps[0].now, steps[0].access).0, steps[1..])
  }

  lemma {:induction false} ImportsOk(s: Stores, steps: seq<ImportStep>)
    requires StoreOk(s.profiles)
    ensures StoreOk(AfterImports(s, steps).profiles)
    decreases |steps|
  {
    hide Processed, StoreOk;
    if steps != [] {
      ProcessedOk(s, steps[0].given, steps[0].now, steps[0].access);
      ImportsOk(Processed(s, steps[0].given, steps[0].now, steps[0].access).0, steps[1..]);
    }
  }

  /** From an empty store, after any imports whatever, accepted, rejected or failing on a store, two
      rows have the same ID exactly when they have the same family, host and port. */
  lemma AlwaysConsistent(hasTemplates: bool, steps: seq<ImportStep>, i: nat, j: nat)
    requires i < |AfterImports(Stores([], hasTemplates, map[]), steps).profiles|
    requires j < |AfterImports(Stores([], hasTemplates, map[]), steps).profiles|
    ensures var rows := AfterImports(Stores([], hasTemplates, map[]), steps).profiles;
            rows[i].id == rows[j].id <==> SameEndpoint(rows[i], rows[j])
  {
    var rows := AfterImports(Stores([], hasTemplates, map[]), steps).profiles;
    ImportsOk(Stores([], hasTemplates, map[]), steps);
    hide AfterImports;
    assert rows[i] in rows && rows[j] in rows;
    assert Compatible(rows, rows[j]);
  }

  /** Saving the templates of this bundle would succeed and change something. */
  predicate TemplatesChange(s: Stores, payload: Payload, access: Access) {
    && s.hasTemplates && payload.templates != map[] && access.templateSave
    && WithTemplates(s, payload.templates, access) != s.templates
  }

  /** A failed import never touches the profile store.  It leaves the template store alone as well,
      except when the bundle is acceptable and its templates are saved first and change something. */
  lemma FailureLeavesStores(s: Stores, given: MaybePayload, now: int, access: Access)
    requires Processed(s, given, now, access).1.Failed?
    ensures Processed(s, given, now, access).0.profiles == s.profiles
    ensures given.NoPayload? ==> Processed(s, given, now, access).0 == s
    ensures given.Given? ==>
              (var payload := given.payload;
               Processed(s, given, now, access).0 == s <==>
               !(Gather(KeptRows(s, payload, access), payload.profiles, now).Gathered? && TemplatesChange(s, payload, access)))
    ensures given.Given? && StoreOk(s.profiles) ==>
              (var payload := given.payload;
               Processed(s, given, now, access).0 == s <==>
               !(Fits(KeptRows(s, payload, access), payload.profiles, now) && TemplatesChange(s, payload, access)))
  {
    if given.Given? {
      var kept := KeptRows(s, given.payload, access);
      ProcessedCases(s, given.payload, now, access);
      if StoreOk(s.profiles) {
        LoadedOk(s, given.payload, access);
        GatherExact(kept, given.payload.profiles, now);
      }
      hide Gather, KeptRows, StoreOk, Consistent, Rows, AllNormal, Processed;
    }
  }

  /** An empty store and a bundle that only brings a template: saving the profiles fails, the
      template stays. */
  lemma TemplatesLeftBehind(now: int)
    ensures var s, payload := Stores([], true, map[]), Payload([], map["vless" := "{}"], []);
            var access := Access(true, false, true, true);
            Processed(s, Given(payload), now, access) == (Stores([], true, map["vless" := "{}"]), Failed(SaveFailed))
  {
    var templates := map["vless" := "{}"];
    assert "vless" in templates;
    assert map[] + templates == templates;
  }

  /** A revoked ID survives only if the same bundle brings it again. */
  lemma RevokedGone(s: Stores, payload: Payload, now: int, access: Access, r: Profile)
    requires StoreOk(s.profiles) && Processed(s, Given(payload), now, access).1.Imported?
    requires r in Processed(s, Given(payload), now, access).0.profiles && r.id in payload.revocations
    ensures r in Rows(payload.profiles, now)
  {
    ImportExact(s, payload, now, access);
    hide Processed, Rows, Consistent, AllNormal, StoreOk;
    KeptMembers(Loaded(s, access), payload.revocations);
  }

  /** After importing at least one profile the engine has something to select, at any later time. */
  lemma ImportUsable(s: Stores, payload: Payload, now: int, access: Access, later: int)
    requires StoreOk(s.profiles) && Processed(s, Given(payload), now, access).1.Imported?
    requires payload.profiles != [] && later >= 0
    ensures Engine.SomeAvailable(Processed(s, Given(payload), now, access).0.profiles, later)
  {
    ImportExact(s, payload, now, access);
    var rows, n := Processed(s, Given(payload), now, access).0.profiles, |KeptRows(s, payload, access)|;
    assert AllNormal(payload.profiles, now);
    hide Processed, Consistent, StoreOk, KeptRows;
    RowFacts(payload.profiles[0], now);
    hide Row, Normal;
    assert rows[n] == Row(payload.profiles[0], now);
    assert AdaptiveRanking.Available(rows[n], later);
  }

  lemma NewRowHealth(p: Profile, now: int)
    requires Normal(p, now).Normalized?
    ensures var row := Row(p, now);
            && row.health == NO_HEALTH.(successEWMA := 0.5, lastOkAt := now) && row.source.trustLevel > 0
  {
    AcceptedProfile(p, now);
    hide Normal, SupportedFamily, IdPattern, AllTagsValid, PlainFamily;
  }

  /** In the hour after an import, every new row scores above any sane profile with six failures in
      a row, whatever that profile's other merits are. */
  lemma NewRowsOutrankFailing(p: Profile, now: int, later: int, failing: Profile)
    requires Normal(p, now).Normalized? && now <= later < now + 3600
    requires AdaptiveScores.SaneFigures(failing) && failing.health.failureCount >= 0 && failing.health.consecutiveFails >= 6
    ensures Engine.EngineScore(Row(p, now), later) > Engine.EngineScore(failing, later)
  {
    hide Row, Normal, Engine.EngineScore;
    NewRowHealth(p, now);
    Engine.FreshScore(Row(p, now), later);
    Engine.EngineScoreBound(failing, later);
  }

  // ---------- importing the same bundle again ----------

  /** Normalising at another time changes nothing that identifies a row. */
  lemma TimelessIdentity(p: Profile, now: int, later: int)
    requires Normal(p, now).Normalized? && Normal(p, later).Normalized?
    ensures var a, b := Row(p, now), Row(p, later);
            a.id == b.id && a.family == b.family && a.endpoint == b.endpoint
  {
    hide Clean, NormalizeFamily, WireTags, FirstProblem;
  }

  /** Rows with the identities of rows that are already there. */
  ghost predicate Known(rows: seq<Profile>, more: seq<Profile>) {
    forall i :: 0 <= i < |more| ==> KnownRow(rows, more[i])
  }

  ghost predicate KnownRow(rows: seq<Profile>, q: Profile) {
    exists r :: r in rows && r.id == q.id && r.family == q.family && r.endpoint == q.endpoint
  }

  lemma KnownCompatible(rows: seq<Profile>, q: Profile)
    requires Consistent(rows) && KnownRow(rows, q)
    ensures Compatible(rows, q)
  {
    var r :| r in rows && r.id == q.id && r.family == q.family && r.endpoint == q.endpoint;
    assert Compatible(rows, r);
    SameIdentity(rows, r, q);
  }

  lemma KnownLonger(rows: seq<Profile>, p: Profile, q: Profile)
    requires KnownRow(rows, q)
    ensures KnownRow(rows + [p], q)
  {
    var r :| r in rows && r.id == q.id && r.family == q.family && r.endpoint == q.endpoint;
    assert r in rows + [p];
  }

  lemma {:induction false} KnownConsistent(rows: seq<Profile>, more: seq<Profile>)
    requires Consistent(rows) && Known(rows, more)
    ensures Consistent(rows + more)
    decreases |more|
  {
    hide Consistent, KnownRow, Compatible;
    if more == [] {
      assert rows + more == rows;
    } else {
      KnownCompatible(rows, more[0]);
      ConsistentSnoc(rows, more[0]);
      var longer := rows + [more[0]];
      forall i | 0 <= i < |more[1..]| ensures KnownRow(longer, more[1..][i]) {
        KnownLonger(rows, more[0], more[i + 1]);
      }
      KnownConsistent(longer, more[1..]);
      assert longer + more[1..] == rows + more;
    }
  }

  lemma RowsKnown(kept: seq<Profile>, profiles: seq<Profile>, now: int, later: int)
    requires AllNormal(profiles, now) && AllNormal(profiles, later)
    ensures Known(kept + Rows(profiles, now), Rows(profiles, later))
  {
    var rows := kept + Rows(profiles, now);
    hide Row, Normal;
    forall i | 0 <= i < |profiles| ensures KnownRow(rows, Rows(profiles, later)[i]) {
      TimelessIdentity(profiles[i], now, later);
      assert rows[|kept| + i] == Row(profiles[i], now);
      assert Row(profiles[i], now) in rows;
    }
  }

  lemma {:induction false} KeptConcat(a: seq<Profile>, b: seq<Profile>, revocations: seq<string>)
    ensures Kept(a + b, revocations) == Kept(a, revocations) + Kept(b, revocations)
    decreases |b|
  {
    if b == [] {
      assert a + b == a;
    } else {
      var n := |b| - 1;
      assert a + b == (a + b[..n]) + [b[n]] && b == b[..n] + [b[n]];
      KeptConcat(a, b[..n], revocations);
      KeptSnoc(a + b[..n], b[n], revocations);
      KeptSnoc(b[..n], b[n], revocations);
    }
  }

  /** Rows that were not revoked are kept. */
  lemma {:induction false} KeptAll(rows: seq<Profile>, revocations: seq<string>)
    requires forall r :: r in rows ==> r.id !in revocations
    ensures Kept(rows, revocations) == rows
  {
    if rows != [] {
      var n := |rows| - 1;
      assert rows == rows[..n] + [rows[n]];
      KeptAll(rows[..n], revocations);
      KeptSnoc(rows[..n], rows[n], revocations);
    }
  }

  lemma KeptTwice(rows: seq<Profile>, revocations: seq<string>)
    ensures Kept(Kept(rows, revocations), revocations) == Kept(rows, revocations)
  {
    KeptMembers(rows, revocations);
    KeptAll(Kept(rows, revocations), revocations);
  }

  /** The rows of a bundle fit beside any part of a store that already has them. */
  lemma FitsAgain(rows: seq<Profile>, part: seq<Profile>, profiles: seq<Profile>, now: int, later: int, kept: seq<Profile>)
    requires rows == kept + Rows(profiles, now) && Consistent(rows) && AllNormal(profiles, now) && AllNormal(profiles, later)
    requires forall r :: r in part ==> r in rows
    ensures Fits(part, profiles, later)
  {
    RowsKnown(kept, profiles, now, later);
    KnownConsistent(rows, Rows(profiles, later));
    hide AllNormal, Rows, Consistent, Known;
    ConsistentPart(part + Rows(profiles, later), rows + Rows(profiles, later));
  }

  lemma KeptRowsWithin(s: Stores, payload: Payload, access: Access)
    ensures forall r :: r in KeptRows(s, payload, access) ==> r in s.profiles
  {
    KeptMembers(Loaded(s, access), payload.revocations);
    hide Kept;
  }

  /** Importing the same bundle once more, at a time when its profiles still normalise, is never
      refused: it fails only if a store does. */
  lemma ReimportAccepted(s: Stores, payload: Payload, now: int, access: Access, later: int, again: Access)
    requires StoreOk(s.profiles) && AllNormal(payload.profiles, later)
    requires Processed(s, Given(payload), now, access).1.Imported?
    ensures var once := Processed(s, Given(payload), now, access).0;
            var (twice, r) := Processed(once, Given(payload), later, again);
            && (r.Imported? <==> !StorageFails(once, payload, again))
            && (StorageError(r) <==> StorageFails(once, payload, again))
            && (r.Imported? ==> twice.profiles == KeptRows(once, payload, again) + Rows(payload.profiles, later))
  {
    var once := Processed(s, Given(payload), now, access).0;
    ImportExact(s, payload, now, access);
    ProcessedOk(s, Given(payload), now, access);
    assert Consistent(once.profiles);
    hide StoreOk, Consistent, AllNormal, Rows, Processed, KeptRows;
    KeptRowsWithin(once, payload, again);
    FitsAgain(once.profiles, KeptRows(once, payload, again), payload.profiles, now, later, KeptRows(s, payload, access));
    ImportExact(once, payload, later, again);
  }

  /** What the store then holds: the rows that survived the first time, the rows of the first import
      unless the bundle itself revokes their ID, and the rows of the second one.  Every profile that
      is not revoked is stored twice: IDs are not unique. */
  lemma Reimport(s: Stores, payload: Payload, now: int, access: Access, later: int, again: Access)
    requires StoreOk(s.profiles) && AllNormal(payload.profiles, later) && again.load
    requires Processed(s, Given(payload), now, access).1.Imported?
    requires Processed(Processed(s, Given(payload), now, access).0, Given(payload), later, again).1.Imported?
    ensures var once := Processed(s, Given(payload), now, access).0;
            Processed(once, Given(payload), later, again).0.profiles
            == KeptRows(s, payload, access) + Kept(Rows(payload.profiles, now), payload.revocations) + Rows(payload.profiles, later)
    ensures payload.revocations == [] ==> Kept(Rows(payload.profiles, now), payload.revocations) == Rows(payload.profiles, now)
  {
    var once := Processed(s, Given(payload), now, access).0;
    ReimportAccepted(s, payload, now, access, later, again);
    ImportExact(s, payload, now, access);
    KeptConcat(KeptRows(s, payload, access), Rows(payload.profiles, now), payload.revocations);
    KeptTwice(Loaded(s, access), payload.revocations);
    if payload.revocations == [] {
      KeptAll(Rows(payload.profiles, now), payload.revocations);
    }
    hide StoreOk, Consistent, AllNormal, Rows, Processed, Kept;
  }
}
