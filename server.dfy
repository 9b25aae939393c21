/** The backend: the in-memory settings and project collection, the derived
    savings the API adds to every record it returns, and the bodies of the
    settings and project handlers, each as a method of the store. */
module Server {
  import opened JsValues
  import opened Records

  /** The two global hourly rates. */
  datatype Settings = Settings(itRate: Num, businessRate: Num)

  const DefaultSettings := Settings(Real(100.0), Real(150.0))

  /** The two projects the store starts with. */
  const Seed := [
    Project("powerbi", "Power BI", Number(Real(200.0)), Number(Real(14.0)), Number(Real(30.0))),
    Project("project2", "Project 2", Number(Real(100.0)), Number(Real(10.0)), Number(Real(15.0)))
  ]

  /** A record as the API returns it: every stored field plus the savings. */
  datatype Derived = Derived(project: Project, itHours: real, itSaving: Num, businessSaving: Num, total: Num)

  /** The two failures a handler reports. */
  datatype ApiError = IdRequired | NotFound

  /** The HTTP status of a failure: 400 for a body without an id, 404 for
      an unknown id. */
  function Status(e: ApiError): (r: nat)
    ensures e.IdRequired? <==> r == 400
    ensures e.NotFound? <==> r == 404
  {
    match e
    case IdRequired => 400
    case NotFound => 404
  }

  /** The `error` text of a failure's response body. */
  function Message(e: ApiError): (r: string)
    ensures e.IdRequired? <==> r == "id required"
    ensures e.NotFound? <==> r == "not found"
  {
    match e
    case IdRequired => "id required"
    case NotFound => "not found"
  }

  /** The settings after a `POST /api/settings` body: a supplied rate is
      overwritten by `Number(rate)`, an absent one keeps its value. */
  function UpdatedSettings(s: Settings, itRate: Value, businessRate: Value): (r: Settings)
    ensures itRate.Undefined? ==> r.itRate == s.itRate
    ensures !itRate.Undefined? ==> r.itRate == ToNumber(itRate)
    ensures businessRate.Undefined? ==> r.businessRate == s.businessRate
    ensures !businessRate.Undefined? ==> r.businessRate == ToNumber(businessRate)
  {
    Settings(
      if itRate.Undefined? then s.itRate else ToNumber(itRate),
      if businessRate.Undefined? then s.businessRate else ToNumber(businessRate))
  }

  /** `computeProjectDerived`: the record is carried through unchanged, a
      saving is NaN exactly when its rate is, and the total is the sum of the
      two savings. */
  function ComputeProjectDerived(p: Project, s: Settings): (r: Derived)
    ensures r.project == p
    ensures r.itSaving.NaN? <==> s.itRate.NaN?
    ensures r.businessSaving.NaN? <==> s.businessRate.NaN?
    ensures r.total == Add(r.itSaving, r.businessSaving)
  {
    var timeMin := Coerce(p.timePerTransactionMin);
    var count := Coerce(p.count);
    var itHours := (count * timeMin) / 60.0;
    var itSaving := Mul(Real(itHours), s.itRate);
    var businessHoursBack := Coerce(p.businessHoursBack);
    var businessSaving := Mul(Real(businessHoursBack), s.businessRate);
    Derived(p, itHours, itSaving, businessSaving, Add(itSaving, businessSaving))
  }

  /** With numeric rates the savings follow the formula on the coerced fields,
      where a missing or non-numeric field counts as 0. */
  lemma DerivedFormula(p: Project, s: Settings)
    requires s.itRate.Real? && s.businessRate.Real?
    ensures var d := ComputeProjectDerived(p, s);
      && d.itHours == Coerce(p.count) * Coerce(p.timePerTransactionMin) / 60.0
      && d.itSaving == Real(d.itHours * s.itRate.r)
      && d.businessSaving == Real(Coerce(p.businessHoursBack) * s.businessRate.r)
      && d.total == Real(d.itHours * s.itRate.r + Coerce(p.businessHoursBack) * s.businessRate.r)
  {
  }

  /** Non-negative inputs and rates give non-negative hours and savings. */
  lemma DerivedNonNegative(p: Project, s: Settings)
    requires Coerce(p.count) >= 0.0 && Coerce(p.timePerTransactionMin) >= 0.0
    requires Coerce(p.businessHoursBack) >= 0.0
    requires s.itRate.Real? && s.itRate.r >= 0.0 && s.businessRate.Real? && s.businessRate.r >= 0.0
    ensures var d := ComputeProjectDerived(p, s);
      d.itHours >= 0.0 && d.itSaving.r >= 0.0 && d.businessSaving.r >= 0.0 && d.total.r >= 0.0
  {
    var c, t, b := Coerce(p.count), Coerce(p.timePerTransactionMin), Coerce(p.businessHoursBack);
    assert c * t >= 0.0;
    assert (c * t / 60.0) * s.itRate.r >= 0.0;
    assert b * s.businessRate.r >= 0.0;
  }

  /** The seeded `powerbi` project under the default rates. */
  lemma SeededPowerBI()
    ensures ComputeProjectDerived(Seed[0], DefaultSettings)
      == Derived(Seed[0], 2800.0 / 60.0, Real(280000.0 / 60.0), Real(4500.0), Real(280000.0 / 60.0 + 4500.0))
  {
  }

  /** `projects.map(p => computeProjectDerived(p))` */
  function DeriveAll(ps: seq<Project>, s: Settings): (r: seq<Derived>)
    ensures |r| == |ps|
    ensures forall i :: 0 <= i < |ps| ==> r[i] == ComputeProjectDerived(ps[i], s)
  {
    if ps == [] then [] else [ComputeProjectDerived(ps[0], s)] + DeriveAll(ps[1..], s)
  }

  /** The collection after an upsert of a record with a non-empty id: the
      first record with that id is replaced in place, otherwise the record
      is appended. */
  function Upserted(ps: seq<Project>, proj: Project): (r: seq<Project>)
    ensures HasId(ps, proj.id) ==> |r| == |ps|
    ensures HasId(ps, proj.id) ==> r[FindIndex(ps, proj.id)] == proj
    ensures HasId(ps, proj.id) ==>
      forall j :: 0 <= j < |ps| && j != FindIndex(ps, proj.id) ==> r[j] == ps[j]
    ensures !HasId(ps, proj.id) ==> |r| == |ps| + 1 && r[..|ps|] == ps && r[|ps|] == proj
  {
    var idx := FindIndex(ps, proj.id);
    if idx >= 0 then ps[idx := proj] else ps + [proj]
  }

  /** After an upsert the ids in use are the old ones plus the new one, and
      ids that were unique stay unique. */
  lemma UpsertKeepsIdsUnique(ps: seq<Project>, proj: Project)
    requires UniqueIds(ps)
    ensures UniqueIds(Upserted(ps, proj))
    ensures Ids(Upserted(ps, proj)) == Ids(ps) + {proj.id}
  {
    var r := Upserted(ps, proj);
    if HasId(ps, proj.id) {
      var idx := FindIndex(ps, proj.id);
      forall i, j | 0 <= i < j < |r| ensures r[i].id != r[j].id {
        if i == idx { assert r[j] == ps[j]; }
        else if j == idx { assert r[i] == ps[i]; }
        else { assert r[i] == ps[i] && r[j] == ps[j]; }
      }
      forall id ensures id in Ids(r) <==> id in Ids(ps) + {proj.id} {
        if HasId(r, id) {
          var i :| 0 <= i < |r| && r[i].id == id;
          if i != idx { assert ps[i] == r[i]; }
        }
        if HasId(ps, id) {
          var i :| 0 <= i < |ps| && ps[i].id == id;
          if i != idx { assert ps[i] == r[i]; } else { assert r[idx].id == id; }
        }
        if id == proj.id { assert r[idx].id == id; }
      }
    } else {
      assert r == ps + [proj];
      AppendFreshKeepsUnique(ps, proj);
      forall id ensures id in Ids(r) <==> id in Ids(ps) + {proj.id} {
        if HasId(r, id) {
          var i :| 0 <= i < |r| && r[i].id == id;
          if i < |ps| { assert ps[i] == r[i]; } else { assert id == proj.id; }
        }
        if HasId(ps, id) {
          var i :| 0 <= i < |ps| && ps[i].id == id;
          assert r[i] == ps[i];
        }
        if id == proj.id { assert r[|ps|] == proj; }
      }
    }
  }

  /** Upserting the same record twice is upserting it once, and the listed
      collection then shows the record exactly as it was sent. */
  lemma UpsertIdempotent(ps: seq<Project>, proj: Project, s: Settings)
    ensures Upserted(Upserted(ps, proj), proj) == Upserted(ps, proj)
    ensures ComputeProjectDerived(proj, s) in DeriveAll(Upserted(ps, proj), s)
  {
    var r := Upserted(ps, proj);
    var idx := FindIndex(ps, proj.id);
    if idx >= 0 {
      assert FindIndex(r, proj.id) == idx by {
        forall j | 0 <= j < idx ensures r[j].id != proj.id { assert r[j] == ps[j]; }
      }
      assert DeriveAll(r, s)[idx] == ComputeProjectDerived(proj, s);
    } else {
      assert r[|ps|].id == proj.id;
      assert FindIndex(r, proj.id) == |ps|;
      assert DeriveAll(r, s)[|ps|] == ComputeProjectDerived(proj, s);
    }
  }

  /** The collection after a patch: the first record with `id` has the body
      merged into it; every other record, the length and the order stay. */
  function Patched(ps: seq<Project>, id: string, body: ProjectPatch): (r: seq<Project>)
    ensures |r| == |ps|
    ensures !HasId(ps, id) ==> r == ps
    ensures HasId(ps, id) ==> r[FindIndex(ps, id)] == Merge(ps[FindIndex(ps, id)], body)
    ensures forall j :: 0 <= j < |ps| && j != FindIndex(ps, id) ==> r[j] == ps[j]
  {
    var idx := FindIndex(ps, id);
    if idx < 0 then ps else ps[idx := Merge(ps[idx], body)]
  }

  /** A patch body may carry an `id` of its own and so rename the record.
      Taking unique ids in, the ids stay unique exactly when the body has no
      id, repeats the patched one, or names one not in use. */
  lemma PatchKeepsIdsUniqueIff(ps: seq<Project>, id: string, body: ProjectPatch)
    requires UniqueIds(ps) && HasId(ps, id)
    ensures UniqueIds(Patched(ps, id, body))
      <==> (body.id.None? || body.id.value == id || !HasId(ps, body.id.value))
  {
    var r := Patched(ps, id, body);
    var idx := FindIndex(ps, id);
    if body.id.None? || body.id.value == id || !HasId(ps, body.id.value) {
      assert r[idx].id == id || (body.id.Some? && r[idx].id == body.id.value);
      forall i, j | 0 <= i < j < |r| ensures r[i].id != r[j].id {
        if i == idx { assert r[j] == ps[j]; }
        else if j == idx { assert r[i] == ps[i]; }
        else { assert r[i] == ps[i] && r[j] == ps[j]; }
      }
    } else {
      var k :| 0 <= k < |ps| && ps[k].id == body.id.value;
      assert k != idx;
      assert r[k] == ps[k] && r[idx].id == body.id.value;
      if k < idx { assert !UniqueIds(r); } else { assert !UniqueIds(r); }
    }
  }

  /** `ps.filter(p => p.id !== id)`: no record with `id` is left, every other
      record is kept, and nothing new appears. */
  function Without(ps: seq<Project>, id: string): (r: seq<Project>)
    ensures |r| <= |ps|
    ensures !HasId(r, id)
    ensures forall p :: p in r <==> p in ps && p.id != id
  {
    if ps == [] then []
    else if ps[0].id == id then Without(ps[1..], id)
    else [ps[0]] + Without(ps[1..], id)
  }

  /** Filtering splits over concatenation, so the kept records stay in their
      original relative order. */
  lemma {:induction false} WithoutConcat(a: seq<Project>, b: seq<Project>, id: string)
    ensures Without(a + b, id) == Without(a, id) + Without(b, id)
  {
    if a == [] {
      assert a + b == b;
    } else {
      assert (a + b)[1..] == a[1..] + b;
      WithoutConcat(a[1..], b, id);
    }
  }

  /** Removing an id that is not there changes nothing; hence deleting twice
      is deleting once. */
  lemma {:induction false} WithoutAbsent(ps: seq<Project>, id: string)
    requires !HasId(ps, id)
    ensures Without(ps, id) == ps
  {
    if ps != [] {
      assert !HasId(ps[1..], id);
      WithoutAbsent(ps[1..], id);
    }
  }

  lemma DeleteIdempotent(ps: seq<Project>, id: string)
    ensures Without(Without(ps, id), id) == Without(ps, id)
  {
    WithoutAbsent(Without(ps, id), id);
  }

  /** Deleting keeps unique ids unique. */
  lemma {:induction false} WithoutKeepsUnique(ps: seq<Project>, id: string)
    requires UniqueIds(ps)
    ensures UniqueIds(Without(ps, id))
  {
    if ps != [] {
      WithoutKeepsUnique(ps[1..], id);
      if ps[0].id != id {
        var rest := Without(ps[1..], id);
        forall p | p in rest ensures p.id != ps[0].id {
          assert p in ps[1..];
        }
        assert UniqueIds([ps[0]] + rest) by {
          forall i, j | 0 <= i < j < |[ps[0]] + rest|
            ensures ([ps[0]] + rest)[i].id != ([ps[0]] + rest)[j].id
          {
            if i == 0 { assert ([ps[0]] + rest)[j] in rest; }
          }
        }
      }
    }
  }

  /** The backend's process-wide state. */
  class Store {
    var settings: Settings
    var projects: seq<Project>

    constructor ()
      ensures settings == DefaultSettings && projects == Seed
      ensures UniqueIds(projects)
    {
      settings := DefaultSettings;
      projects := Seed;
    }

    /** `GET /api/settings` */
    method GetSettings() returns (s: Settings)
      ensures s == settings
    {
      s := settings;
    }

    /** `POST /api/settings` */
    method UpdateSettings(itRate: Value, businessRate: Value) returns (s: Settings)
      modifies this
      ensures settings == UpdatedSettings(old(settings), itRate, businessRate)
      ensures projects == old(projects)
      ensures s == settings
    {
      if !itRate.Undefined? { settings := settings.(itRate := ToNumber(itRate)); }
      if !businessRate.Undefined? { settings := settings.(businessRate := ToNumber(businessRate)); }
      s := settings;
    }

    /** `GET /api/projects`: every stored record in order, with the savings
      under the rates current at the time of the call. */
    method List() returns (r: seq<Derived>)
      ensures |r| == |projects|
      ensures forall i :: 0 <= i < |r| ==> r[i] == ComputeProjectDerived(projects[i], settings)
    {
      r := DeriveAll(projects, settings);
    }

    /** `POST /api/projects` */
    method Upsert(proj: Project) returns (r: Result<Derived, ApiError>)
      modifies this
      ensures proj.id == "" ==> r == Err(IdRequired) && projects == old(projects)
      ensures proj.id != "" ==> r == Ok(ComputeProjectDerived(proj, settings))
      ensures proj.id != "" ==> projects == Upserted(old(projects), proj)
      ensures settings == old(settings)
    {
      if proj.id == "" {
        return Err(IdRequired);
      }
      var idx := FindIndex(projects, proj.id);
      if idx >= 0 {
        projects := projects[idx := proj];
      } else {
        projects := projects + [proj];
      }
      r := Ok(ComputeProjectDerived(proj, settings));
    }

    /** `PUT /api/projects/:id` */
    method Patch(id: string, body: ProjectPatch) returns (r: Result<Derived, ApiError>)
      modifies this
      ensures projects == Patched(old(projects), id, body)
      ensures !HasId(old(projects), id) ==> r == Err(NotFound)
      ensures HasId(old(projects), id) ==>
        r == Ok(ComputeProjectDerived(projects[FindIndex(old(projects), id)], settings))
      ensures settings == old(settings)
    {
      var idx := FindIndex(projects, id);
      if idx < 0 {
        return Err(NotFound);
      }
      projects := projects[idx := Merge(projects[idx], body)];
      r := Ok(ComputeProjectDerived(projects[idx], settings));
    }

    /** `DELETE /api/projects/:id`: always reports success. */
    method Delete(id: string) returns (success: bool)
      modifies this
      ensures projects == Without(old(projects), id)
      ensures settings == old(settings)
      ensures success
    {
      projects := Without(projects, id);
      success := true;
    }
  }
}
