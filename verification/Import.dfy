/** Importing a verified bundle (pkg/importctl/import.go): ProcessAndStore merges its profiles and
    templates into the stores.  Whether a store can be read or written is a parameter. */
module Import {
  import opened Profiles
  import opened Normalize

  datatype Payload = Payload(profiles: seq<Profile>, templates: map<string, string>, revocations: seq<string>)

  datatype MaybePayload = NoPayload | Given(payload: Payload)

  datatype ImportError =
    | EmptyPayload
    | ProfileInvalid(id: string, problem: Problem)
    | ConflictingId(id: string)
    | ConflictingDuplicate(id: string)
    | EndpointConflict(id: string, owner: string)
    | TemplateSaveFailed
    | SaveFailed

  datatype ImportResult = Imported | Failed(error: ImportError)

  /** Which accesses to the two stores succeed. */
  datatype Access = Access(load: bool, save: bool, templateLoad: bool, templateSave: bool)

  /** Both stores; an importer may have been made without a template store. */
  datatype Stores = Stores(profiles: seq<Profile>, hasTemplates: bool, templates: map<string, string>)

  // ---------- the lookup tables ----------

  /** The last row of every ID. */
  function ById(rows: seq<Profile>): map<string, Profile> {
    if rows == [] then map[] else ById(rows[..|rows| - 1])[rows[|rows| - 1].id := rows[|rows| - 1]]
  }

  /** The ID of the last row of every endpoint. */
  function ByEndpoint(rows: seq<Profile>): map<string, string> {
    if rows == [] then map[] else ByEndpoint(rows[..|rows| - 1])[EndpointKey(rows[|rows| - 1]) := rows[|rows| - 1].id]
  }

  // ---------- one import ----------

  /** The rows that survive the revocations. */
  function Kept(rows: seq<Profile>, revocations: seq<string>): seq<Profile> {
    if rows == [] then []
    else
      var front, p := Kept(rows[..|rows| - 1], revocations), rows[|rows| - 1];
      if p.id in revocations then front else front + [p]
  }

  datatype Verdict = Clear | Conflict(error: ImportError)

  /** The four conflict checks on a normalised profile. */
  function Conflicts(kept: seq<Profile>, news: seq<Profile>, q: Profile): Verdict {
    var key := EndpointKey(q);
    if q.id in ById(kept) && !SameEndpoint(ById(kept)[q.id], q) then Conflict(ConflictingId(q.id))
    else if q.id in ById(news) && !SameEndpoint(ById(news)[q.id], q) then Conflict(ConflictingDuplicate(q.id))
    else if key in ByEndpoint(kept) && ByEndpoint(kept)[key] != q.id then Conflict(EndpointConflict(q.id, ByEndpoint(kept)[key]))
    else if key in ByEndpoint(news) && ByEndpoint(news)[key] != q.id then Conflict(EndpointConflict(q.id, ByEndpoint(news)[key]))
    else Clear
  }

  function FinishSource(s: SourceInfo, now: int): SourceInfo {
    SourceInfo(if s.source == "" then "bundle" else s.source,
               if s.trustLevel == 0 then 80 else s.trustLevel,
               if s.importedAt == 0 then now else s.importedAt, s.publisherKey)
  }

  function FinishHealth(h: Health, now: int): Health {
    h.(successEWMA := if h.score == 0.0 && h.successEWMA == 0.0 then 0.5 else h.successEWMA,
       lastOkAt := if h.lastFailAt == 0 && h.lastOkAt == 0 then now else h.lastOkAt)
  }

  /** The row that is stored for a normalised profile. */
  function Finish(q: Profile, now: int): Profile {
    q.(enabled := true, source := FinishSource(q.source, now), health := FinishHealth(q.health, now))
  }

  datatype Gathering = Gathered(news: seq<Profile>) | Rejected(error: ImportError)

  function GatherOne(kept: seq<Profile>, news: seq<Profile>, p: Profile, now: int): Gathering {
    match Normal(p, now)
    case Refused(problem) => Rejected(ProfileInvalid(p.id, problem))
    case Normalized(q) =>
      match Conflicts(kept, news, q)
      case Conflict(error) => Rejected(error)
      case Clear => Gathered(news + [Finish(q, now)])
  }

  function GatherNext(kept: seq<Profile>, g: Gathering, p: Profile, now: int): Gathering {
    if g.Rejected? then g else GatherOne(kept, g.news, p, now)
  }

  /** The new rows, or the error of the first profile that has one. */
  function Gather(kept: seq<Profile>, profiles: seq<Profile>, now: int): Gathering {
    if profiles == [] then Gathered([])
    else GatherNext(kept, Gather(kept, profiles[..|profiles| - 1], now), profiles[|profiles| - 1], now)
  }

  function Loaded(s: Stores, access: Access): seq<Profile> {
    if access.load then s.profiles else []
  }

  function WithTemplates(s: Stores, templates: map<string, string>, access: Access): map<string, string> {
    (if access.templateLoad then s.templates else map[]) + templates
  }

  /** Templates are saved first; the profile store is written only after that. */
  function SaveBoth(s: Stores, rows: seq<Profile>, templates: map<string, string>, access: Access): (Stores, ImportResult) {
    if s.hasTemplates && templates != map[] && !access.templateSave then (s, Failed(TemplateSaveFailed))
    else
      var t := if s.hasTemplates && templates != map[] then s.(templates := WithTemplates(s, templates, access)) else s;
      if access.save then (t.(profiles := rows), Imported) else (t, Failed(SaveFailed))
  }

  function Processed(s: Stores, given: MaybePayload, now: int, access: Access): (Stores, ImportResult) {
    match given
    case NoPayload => (s, Failed(EmptyPayload))
    case Given(payload) =>
      var kept := Kept(Loaded(s, access), payload.revocations);
      match Gather(kept, payload.profiles, now)
      case Rejected(error) => (s, Failed(error))
      case Gathered(news) => SaveBoth(s, kept + news, payload.templates, access)
  }

  // ---------- the importer ----------

  lemma Snoc(rows: seq<Profile>, p: Profile)
    ensures ById(rows + [p]) == ById(rows)[p.id := p]
    ensures ByEndpoint(rows + [p]) == ByEndpoint(rows)[EndpointKey(p) := p.id]
  {
    hide EndpointKey;
    assert (rows + [p])[..|rows|] == rows;
  }

  lemma KeptSnoc(rows: seq<Profile>, p: Profile, revocations: seq<string>)
    ensures Kept(rows + [p], revocations) == if p.id in revocations then Kept(rows, revocations) else Kept(rows, revocations) + [p]
  {
    assert (rows + [p])[..|rows|] == rows;
  }

  lemma GatherSnoc(kept: seq<Profile>, profiles: seq<Profile>, p: Profile, now: int)
    ensures Gather(kept, profiles + [p], now) == GatherNext(kept, Gather(kept, profiles, now), p, now)
  {
    hide GatherOne;
    assert (profiles + [p])[..|profiles|] == profiles;
  }

  /** An error stays the answer whatever profiles follow. */
  lemma {:induction false} RejectedStays(kept: seq<Profile>, profiles: seq<Profile>, n: nat, now: int)
    requires n <= |profiles| && Gather(kept, profiles[..n], now).Rejected?
    ensures Gather(kept, profiles, now) == Gather(kept, profiles[..n], now)
    decreases |profiles|
  {
    hide GatherOne;
    if n == |profiles| {
      assert profiles[..n] == profiles;
    } else {
      assert profiles[..|profiles| - 1][..n] == profiles[..n];
      RejectedStays(kept, profiles[..|profiles| - 1], n, now);
    }
  }

  class Importer {
    var profiles: seq<Profile>
    const hasTemplates: bool
    var templates: map<string, string>

    function Value(): Stores
      reads this
    {
      Stores(profiles, hasTemplates, templates)
    }

    constructor (hasTemplates: bool)
      ensures Value() == Stores([], hasTemplates, map[])
    {
      this.hasTemplates := hasTemplates;
      profiles, templates := [], map[];
    }

    method ProcessAndStore(given: MaybePayload, now: int, access: Access) returns (r: ImportResult)
      modifies this
      ensures (Value(), r) == Processed(old(Value()), given, now, access)
    {
      if given.NoPayload? {
        return Failed(EmptyPayload);
      }
      var payload := given.payload;
      var existing := if access.load then profiles else [];
      var kept, existingById, existingByEndpoint := Survivors(existing, payload.revocations);
      var gathering := Collect(kept, existingById, existingByEndpoint, payload.profiles, now);
      if gathering.Rejected? {
        return Failed(gathering.error);
      }
      hide Kept, Gather;
      r := Store(kept + gathering.news, payload.templates, access);
    }

    method Store(rows: seq<Profile>, added: map<string, string>, access: Access) returns (r: ImportResult)
      modifies this
      ensures (Value(), r) == SaveBoth(old(Value()), rows, added, access)
    {
      if hasTemplates && added != map[] {
        var current := if access.templateLoad then templates else map[];
        current := MergeTemplates(current, added);
        if !access.templateSave {
          return Failed(TemplateSaveFailed);
        }
        templates := current;
      }
      if !access.save {
        return Failed(SaveFailed);
      }
      profiles := rows;
      return Imported;
    }
  }

  method MergeTemplates(current: map<string, string>, added: map<string, string>) returns (merged: map<string, string>)
    ensures merged == current + added
  {
    merged := current;
    var keys := added.Keys;
    while keys != {}
      invariant keys <= added.Keys
      invariant merged == current + (added - keys)
    {
      var k :| k in keys;
      merged := merged[k := added[k]];
      keys := keys - {k};
    }
    assert added - {} == added;
  }

  method RevokedIds(revocations: seq<string>) returns (revoked: set<string>)
    ensures forall id :: id in revoked <==> id in revocations
  {
    revoked := {};
    for i := 0 to |revocations|
      invariant forall id :: id in revoked <==> id in revocations[..i]
    {
      revoked := revoked + {revocations[i]};
    }
    assert revocations[..|revocations|] == revocations;
  }

  /** The loop over the stored rows. */
  method Survivors(existing: seq<Profile>, revocations: seq<string>)
    returns (kept: seq<Profile>, byId: map<string, Profile>, byEndpoint: map<string, string>)
    ensures kept == Kept(existing, revocations) && byId == ById(kept) && byEndpoint == ByEndpoint(kept)
  {
    hide EndpointKey;
    var revoked := RevokedIds(revocations);
    kept, byId, byEndpoint := [], map[], map[];
    for i := 0 to |existing|
      invariant kept == Kept(existing[..i], revocations) && byId == ById(kept) && byEndpoint == ByEndpoint(kept)
    {
      hide Kept, ById, ByEndpoint;
      var p := existing[i];
      KeptSnoc(existing[..i], p, revocations);
      assert existing[..i + 1] == existing[..i] + [p];
      if p.id !in revoked {
        Snoc(kept, p);
        byId, byEndpoint, kept := byId[p.id := p], byEndpoint[EndpointKey(p) := p.id], kept + [p];
      }
    }
    assert existing[..|existing|] == existing;
  }

  /** The loop over the profiles of the bundle. */
  method Collect(kept: seq<Profile>, existingById: map<string, Profile>, existingByEndpoint: map<string, string>,
                 profiles: seq<Profile>, now: int) returns (g: Gathering)
    requires existingById == ById(kept) && existingByEndpoint == ByEndpoint(kept)
    ensures g == Gather(kept, profiles, now)
  {
    hide EndpointKey, GatherOne;
    var news: seq<Profile>, newById, newByEndpoint := [], map[], map[];
    for i := 0 to |profiles|
      invariant Gather(kept, profiles[..i], now) == Gathered(news)
      invariant newById == ById(news) && newByEndpoint == ByEndpoint(news)
    {
      hide Gather, ById, ByEndpoint;
      GatherSnoc(kept, profiles[..i], profiles[i], now);
      assert profiles[..i + 1] == profiles[..i] + [profiles[i]];
      var one := Consider(existingById, existingByEndpoint, newById, newByEndpoint, kept, news, profiles[i], now);
      if one.Rejected? {
        RejectedStays(kept, profiles, i + 1, now);
        return one;
      }
      var row := one.news[0];
      Snoc(news, row);
      newById, newByEndpoint, news := newById[row.id := row], newByEndpoint[EndpointKey(row) := row.id], news + [row];
    }
    assert profiles[..|profiles|] == profiles;
    return Gathered(news);
  }

  /** The body of that loop: the row for one profile, or the error. */
  method Consider(existingById: map<string, Profile>, existingByEndpoint: map<string, string>,
                  newById: map<string, Profile>, newByEndpoint: map<string, string>,
                  ghost kept: seq<Profile>, ghost news: seq<Profile>, p: Profile, now: int) returns (one: Gathering)
    requires existingById == ById(kept) && existingByEndpoint == ByEndpoint(kept)
    requires newById == ById(news) && newByEndpoint == ByEndpoint(news)
    ensures one.Rejected? ==> GatherOne(kept, news, p, now) == one
    ensures one.Gathered? ==> |one.news| == 1 && GatherOne(kept, news, p, now) == Gathered(news + one.news)
  {
    hide ById, ByEndpoint, Normal, Conflicts, Finish;
    var normal := NormalizeForWire(p, now);
    if normal.Refused? {
      return Rejected(ProfileInvalid(p.id, normal.problem));
    }
    var verdict := CheckConflicts(existingById, existingByEndpoint, newById, newByEndpoint, kept, news, normal.profile);
    if verdict.Conflict? {
      return Rejected(verdict.error);
    }
    var row := Complete(normal.profile, now);
    return Gathered([row]);
  }

  method CheckConflicts(existingById: map<string, Profile>, existingByEndpoint: map<string, string>,
                        newById: map<string, Profile>, newByEndpoint: map<string, string>,
                        ghost kept: seq<Profile>, ghost news: seq<Profile>, p: Profile) returns (v: Verdict)
    requires existingById == ById(kept) && existingByEndpoint == ByEndpoint(kept)
    requires newById == ById(news) && newByEndpoint == ByEndpoint(news)
    ensures v == Conflicts(kept, news, p)
  {
    hide ById, ByEndpoint, EndpointKey;
    if p.id in existingById {
      var prev := existingById[p.id];
      if prev.family != p.family || prev.endpoint.host != p.endpoint.host || prev.endpoint.port != p.endpoint.port {
        return Conflict(ConflictingId(p.id));
      }
    }
    if p.id in newById {
      var prev := newById[p.id];
      if prev.family != p.family || prev.endpoint.host != p.endpoint.host || prev.endpoint.port != p.endpoint.port {
        return Conflict(ConflictingDuplicate(p.id));
      }
    }
    var key := EndpointKey(p);
    if key in existingByEndpoint && existingByEndpoint[key] != p.id {
      return Conflict(EndpointConflict(p.id, existingByEndpoint[key]));
    }
    if key in newByEndpoint && newByEndpoint[key] != p.id {
      return Conflict(EndpointConflict(p.id, newByEndpoint[key]));
    }
    return Clear;
  }

  /** The defaults of an imported row, one after the other. */
  method Complete(profile: Profile, now: int) returns (p: Profile)
    ensures p == Finish(profile, now)
  {
    p := profile.(enabled := true);
    if p.source.source == "" {
      p := p.(source := p.source.(source := "bundle"));
    }
    if p.source.trustLevel == 0 {
      p := p.(source := p.source.(trustLevel := 80));
    }
    if p.source.importedAt == 0 {
      p := p.(source := p.source.(importedAt := now));
    }
    if p.health.score == 0.0 && p.health.successEWMA == 0.0 {
      p := p.(health := p.health.(successEWMA := 0.5));
    }
    if p.health.lastFailAt == 0 && p.health.lastOkAt == 0 {
      p := p.(health := p.health.(lastOkAt := now));
    }
  }
}
