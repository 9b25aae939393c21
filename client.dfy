/** The calculator screen: the savings it derives on its own with fixed
    rates, the running totals, the local edits and the save-time
    normalisation of the numeric fields, and adding a project under a fresh
    id. The list of records the screen holds is the `projects` field of a
    `Calculator`. */
module Client {
  import opened JsValues
  import opened Text
  import opened Records
  import opened Slug
  import opened FreshIds

  /** The screen's own hourly rates; it does not read the server's settings. */
  const ItRate := 100.0
  const BusinessRate := 150.0

  /** The four derived figures of one project, or their sums. */
  datatype Figures = Figures(itHours: real, itSaving: real, businessSaving: real, total: real)

  const NoFigures := Figures(0.0, 0.0, 0.0, 0.0)

  function Plus(a: Figures, b: Figures): Figures {
    Figures(a.itHours + b.itHours, a.itSaving + b.itSaving,
            a.businessSaving + b.businessSaving, a.total + b.total)
  }

  /** `computeDerived(p)`: every field is read with `Number(x) || 0`, so the
      figures are always numbers, and the total is the sum of the savings. */
  function ComputeDerived(p: Project): (d: Figures)
    ensures d.total == d.itSaving + d.businessSaving
  {
    var timeMin := Coerce(p.timePerTransactionMin);
    var count := Coerce(p.count);
    var itHours := (count * timeMin) / 60.0;
    var itSaving := itHours * ItRate;
    var businessHoursBack := Coerce(p.businessHoursBack);
    var businessSaving := (count * businessHoursBack * BusinessRate) / 60.0;
    Figures(itHours, itSaving, businessSaving, itSaving + businessSaving)
  }

  /** The figures in closed form: the IT saving is 100 per hour of
      `count * minutes / 60`, the business saving is
      `count * businessHoursBack * 150 / 60`. */
  lemma ClientFormula(p: Project)
    ensures var c, t, b := Coerce(p.count), Coerce(p.timePerTransactionMin), Coerce(p.businessHoursBack);
      var d := ComputeDerived(p);
      && d.itHours * 60.0 == c * t
      && d.itSaving * 60.0 == 100.0 * c * t
      && d.businessSaving * 60.0 == 150.0 * c * b
      && d.total * 60.0 == 100.0 * c * t + 150.0 * c * b
  {
  }

  /** A missing or non-numeric count zeroes every figure. */
  lemma NoCountNoFigures(p: Project)
    requires ToNumber(p.count).NaN? || ToNumber(p.count) == Real(0.0)
    ensures ComputeDerived(p) == NoFigures
  {
  }

  /** Non-negative inputs give non-negative figures. */
  lemma ClientNonNegative(p: Project)
    requires Coerce(p.count) >= 0.0 && Coerce(p.timePerTransactionMin) >= 0.0
    requires Coerce(p.businessHoursBack) >= 0.0
    ensures var d := ComputeDerived(p);
      d.itHours >= 0.0 && d.itSaving >= 0.0 && d.businessSaving >= 0.0 && d.total >= 0.0
  {
    var c, t, b := Coerce(p.count), Coerce(p.timePerTransactionMin), Coerce(p.businessHoursBack);
    assert c * t >= 0.0;
    assert c * b >= 0.0;
    assert c * b * BusinessRate >= 0.0;
  }

  /** The `totals` reduction over the list, one record after another from
      the first: the sums keep total = IT saving + business saving, and an
      empty list sums to zero. */
  function SumFigures(ps: seq<Project>): (r: Figures)
    ensures ps == [] ==> r == NoFigures
    ensures r.total == r.itSaving + r.businessSaving
  {
    if ps == [] then NoFigures
    else Plus(SumFigures(ps[..|ps| - 1]), ComputeDerived(ps[|ps| - 1]))
  }

  /** The four figures, to name one of them. */
  datatype FigureField = ItHours | ItSaving | BusinessSaving | Total

  function Get(d: Figures, f: FigureField): real {
    match f
    case ItHours => d.itHours
    case ItSaving => d.itSaving
    case BusinessSaving => d.businessSaving
    case Total => d.total
  }

  /** The sum of one derived figure over the list, from the front. */
  function FieldSum(ps: seq<Project>, f: FigureField): real {
    if ps == [] then 0.0 else Get(ComputeDerived(ps[0]), f) + FieldSum(ps[1..], f)
  }

  lemma {:induction false} FieldSumSnoc(ps: seq<Project>, p: Project, f: FigureField)
    ensures FieldSum(ps + [p], f) == FieldSum(ps, f) + Get(ComputeDerived(p), f)
  {
    if ps != [] {
      assert (ps + [p])[1..] == ps[1..] + [p];
      FieldSumSnoc(ps[1..], p, f);
    }
  }

  /** Each field of the totals is the sum of that derived field over all
      projects. */
  lemma {:induction false} TotalsByField(ps: seq<Project>, f: FigureField)
    ensures Get(SumFigures(ps), f) == FieldSum(ps, f)
  {
    if ps != [] {
      var init := ps[..|ps| - 1];
      TotalsByField(init, f);
      assert ps == init + [ps[|ps| - 1]];
      FieldSumSnoc(init, ps[|ps| - 1], f);
    }
  }

  /** Adding one record at the end adds its figures to the totals. */
  lemma TotalsSnoc(ps: seq<Project>, p: Project)
    ensures SumFigures(ps + [p]) == Plus(SumFigures(ps), ComputeDerived(p))
  {
    assert (ps + [p])[..|ps|] == ps;
  }

  /** The totals of two lists joined are the totals of each, added up. */
  lemma {:induction false} TotalsConcat(a: seq<Project>, b: seq<Project>)
    ensures SumFigures(a + b) == Plus(SumFigures(a), SumFigures(b))
  {
    if b == [] {
      assert a + b == a;
    } else {
      var init, last := b[..|b| - 1], b[|b| - 1];
      assert b == init + [last];
      assert a + b == (a + init) + [last];
      TotalsSnoc(a + init, last);
      TotalsSnoc(init, last);
      TotalsConcat(a, init);
      PlusAssoc(SumFigures(a), SumFigures(init), ComputeDerived(last));
    }
  }

  lemma PlusAssoc(x: Figures, y: Figures, z: Figures)
    ensures Plus(Plus(x, y), z) == Plus(x, Plus(y, z))
  {
  }

  /** Two lists whose records have the same figures, one by one, have the
      same totals. */
  lemma {:induction false} SameFiguresSameTotals(a: seq<Project>, b: seq<Project>)
    requires |a| == |b|
    requires forall i :: 0 <= i < |a| ==> ComputeDerived(a[i]) == ComputeDerived(b[i])
    ensures SumFigures(a) == SumFigures(b)
  {
    if a != [] {
      SameFiguresSameTotals(a[..|a| - 1], b[..|b| - 1]);
    }
  }

  /** `prev.map(p => p.id === id ? { ...p, ...patch } : p)`: every record
      with the id has the patch merged in, every other record stays, and the
      order and the length stay. */
  function UpdatedLocally(ps: seq<Project>, id: string, patch: ProjectPatch): (r: seq<Project>)
    ensures |r| == |ps|
    ensures forall i :: 0 <= i < |ps| ==> r[i] == (if ps[i].id == id then Merge(ps[i], patch) else ps[i])
  {
    if ps == [] then []
    else [if ps[0].id == id then Merge(ps[0], patch) else ps[0]] + UpdatedLocally(ps[1..], id, patch)
  }

  /** Editing an id nobody has changes nothing. */
  lemma UpdateLocalAbsent(ps: seq<Project>, id: string, patch: ProjectPatch)
    requires !HasId(ps, id)
    ensures UpdatedLocally(ps, id, patch) == ps
  {
    var r := UpdatedLocally(ps, id, patch);
    assert forall i :: 0 <= i < |ps| ==> r[i] == ps[i];
  }

  /** A patch without an id keeps every record's id, so the ids in use and
      their uniqueness stay. */
  lemma UpdateLocalKeepsIds(ps: seq<Project>, id: string, patch: ProjectPatch)
    requires patch.id.None?
    ensures var r := UpdatedLocally(ps, id, patch);
      (forall i :: 0 <= i < |ps| ==> r[i].id == ps[i].id)
      && Ids(r) == Ids(ps)
      && (UniqueIds(ps) ==> UniqueIds(r))
  {
    var r := UpdatedLocally(ps, id, patch);
    forall x ensures x in Ids(r) <==> x in Ids(ps) {
      if HasId(r, x) {
        var i :| 0 <= i < |r| && r[i].id == x;
        assert ps[i].id == x;
      }
      if HasId(ps, x) {
        var i :| 0 <= i < |ps| && ps[i].id == x;
        assert r[i].id == x;
      }
    }
  }

  /** Two edits of the same record in a row are one edit with the combined
      patch, as long as the first keeps the record's id. */
  lemma UpdateLocalTwice(ps: seq<Project>, id: string, a: ProjectPatch, b: ProjectPatch)
    requires a.id.None? || a.id == Some(id)
    ensures UpdatedLocally(UpdatedLocally(ps, id, a), id, b) == UpdatedLocally(ps, id, Then(a, b))
  {
    var once := UpdatedLocally(ps, id, a);
    var twice := UpdatedLocally(once, id, b);
    var combined := UpdatedLocally(ps, id, Then(a, b));
    forall i | 0 <= i < |ps| ensures twice[i] == combined[i] {
      if ps[i].id == id {
        MergeLaws(ps[i], a, b);
        assert once[i].id == id;
      }
    }
  }

  /** The three number inputs of a row. */
  datatype NumericField = Count | TimePerTransactionMin | BusinessHoursBack

  function FieldOf(p: Project, f: NumericField): Value {
    match f
    case Count => p.count
    case TimePerTransactionMin => p.timePerTransactionMin
    case BusinessHoursBack => p.businessHoursBack
  }

  /** `{ count: v }`, `{ timePerTransactionMin: v }` or `{ businessHoursBack: v }` */
  function FieldPatch(f: NumericField, v: Value): ProjectPatch {
    match f
    case Count => NoChanges.(count := Some(v))
    case TimePerTransactionMin => NoChanges.(timePerTransactionMin := Some(v))
    case BusinessHoursBack => NoChanges.(businessHoursBack := Some(v))
  }

  /** The save-time value of a field, `v === '' ? 0 : Number(v || 0)`: the
      test for the empty string changes nothing, since `'' || 0` is 0
      already. */
  function Normalized(v: Value): (r: Num)
    ensures r == NumberOrZero(v)
  {
    if v.Text? && v.s == "" then Real(0.0) else NumberOrZero(v)
  }

  /** The value an input's change handler stores, `raw === '' ? '' : Number(raw)`:
      the empty string is kept as it is, any other input becomes a number. */
  function Edited(raw: Value): Value
    requires raw.Text?
  {
    if raw.s == "" then raw else Number(ToNumber(raw))
  }

  /** Whatever is typed, saving the edited field stores a finite number,
      the one `Number(raw) || 0` gives. */
  lemma EditThenSaveFinite(raw: Value)
    requires raw.Text?
    ensures Normalized(Edited(raw)) == Real(Coerce(raw))
  {
    if raw.s == "" {
      assert Text.IsBlank(raw.s);
    }
  }

  /** The list after `onCountSave`, `onTimeSave` or `onBizSave`: the value
      is read from the first record with the id and written, normalised, into
      every record with the id; without such a record nothing changes. */
  function SavedField(ps: seq<Project>, id: string, f: NumericField): seq<Project> {
    var k := FindIndex(ps, id);
    if k < 0 then ps
    else UpdatedLocally(ps, id, FieldPatch(f, Number(Normalized(FieldOf(ps[k], f)))))
  }

  /** Writing one numeric field changes that field and nothing else. */
  lemma FieldPatchWrites(p: Project, f: NumericField, v: Value)
    ensures FieldOf(Merge(p, FieldPatch(f, v)), f) == v
    ensures forall g :: g != f ==> FieldOf(Merge(p, FieldPatch(f, v)), g) == FieldOf(p, g)
    ensures Merge(p, FieldPatch(f, v)).id == p.id && Merge(p, FieldPatch(f, v)).name == p.name
  {
  }

  /** With unique ids a save touches one field of one record: the field now
      holds `Number(v || 0)` of its old value `v`, and the ids stay unique. */
  lemma SaveNormalises(ps: seq<Project>, id: string, f: NumericField)
    requires UniqueIds(ps) && HasId(ps, id)
    ensures var r, k := SavedField(ps, id, f), FindIndex(ps, id);
      && |r| == |ps|
      && FieldOf(r[k], f) == Number(NumberOrZero(FieldOf(ps[k], f)))
      && (forall g :: g != f ==> FieldOf(r[k], g) == FieldOf(ps[k], g))
      && r[k].id == id && r[k].name == ps[k].name
      && (forall j :: 0 <= j < |ps| && j != k ==> r[j] == ps[j])
      && UniqueIds(r)
  {
    var k := FindIndex(ps, id);
    var v := Number(Normalized(FieldOf(ps[k], f)));
    var patch := FieldPatch(f, v);
    var r := UpdatedLocally(ps, id, patch);
    assert SavedField(ps, id, f) == r;
    UpdateLocalKeepsIds(ps, id, patch);
    assert r[k] == Merge(ps[k], patch);
    FieldPatchWrites(ps[k], f, v);
    forall j | 0 <= j < |ps| && j != k ensures r[j] == ps[j] {
      assert ps[j].id != id;
    }
  }

  /** Saving never changes the figures or the totals the screen shows:
      `Number(v || 0)` read back with `Number(x) || 0` is `Number(v) || 0`. */
  lemma SaveKeepsFigures(ps: seq<Project>, id: string, f: NumericField)
    requires UniqueIds(ps)
    ensures var r := SavedField(ps, id, f);
      && (forall i :: 0 <= i < |ps| ==> ComputeDerived(r[i]) == ComputeDerived(ps[i]))
      && SumFigures(r) == SumFigures(ps)
  {
    var r := SavedField(ps, id, f);
    if HasId(ps, id) {
      var k := FindIndex(ps, id);
      SavedRecordFigures(ps[k], f);
      forall j | 0 <= j < |ps| && j != k ensures r[j] == ps[j] {
        assert ps[j].id != id;
      }
    }
    SameFiguresSameTotals(r, ps);
  }

  /** A record whose field `f` was normalised has the same figures. */
  lemma SavedRecordFigures(p: Project, f: NumericField)
    ensures ComputeDerived(Merge(p, FieldPatch(f, Number(NumberOrZero(FieldOf(p, f))))))
      == ComputeDerived(p)
  {
    var q := Merge(p, FieldPatch(f, Number(NumberOrZero(FieldOf(p, f)))));
    FiniteAfterSaving(FieldOf(p, f));
    match f
    case Count =>
      assert q.timePerTransactionMin == p.timePerTransactionMin && q.businessHoursBack == p.businessHoursBack;
      SameCoercedSameFigures(q, p);
    case TimePerTransactionMin =>
      assert q.count == p.count && q.businessHoursBack == p.businessHoursBack;
      SameCoercedSameFigures(q, p);
    case BusinessHoursBack =>
      assert q.count == p.count && q.timePerTransactionMin == p.timePerTransactionMin;
      SameCoercedSameFigures(q, p);
  }

  /** The figures depend on the coerced numbers only. */
  lemma SameCoercedSameFigures(p: Project, q: Project)
    requires Coerce(p.count) == Coerce(q.count)
    requires Coerce(p.timePerTransactionMin) == Coerce(q.timePerTransactionMin)
    requires Coerce(p.businessHoursBack) == Coerce(q.businessHoursBack)
    ensures ComputeDerived(p) == ComputeDerived(q)
  {
  }

  /** Saving a field twice leaves the finite number `Number(v) || 0` in it:
      text that does not parse is saved as NaN first and as 0 the second
      time. */
  lemma FiniteAfterSaving(v: Value)
    ensures NumberOrZero(Number(NumberOrZero(v))) == Real(Coerce(v))
    ensures Coerce(Number(NumberOrZero(v))) == Coerce(v)
  {
    CoercionsCompared(v);
  }

  /** The add-project form. Its id and name are the text typed in. */
  datatype NewProjectForm = NewProjectForm(
    name: string,
    id: string,
    count: Value,
    timePerTransactionMin: Value,
    businessHoursBack: Value)

  datatype AddError = NameRequired

  /** The text `addProject` shows for a missing name. */
  function AddErrorMessage(e: AddError): (r: string)
    ensures e == NameRequired && r == "Project name is required"
  {
    "Project name is required"
  }

  /** The id proposed for a new project: the trimmed explicit id when it is
      not blank, otherwise the slug of the name. */
  function IdCandidate(form: NewProjectForm): (r: string)
    ensures !IsBlank(form.id) ==> r == Trim(form.id) && r != [] && !IsSpace(r[0]) && !IsSpace(r[|r| - 1])
    ensures IsBlank(form.id) ==> r == Slugify(form.name) && IsSlug(r)
  {
    if !IsBlank(form.id) then Trim(form.id)
    else SlugifyWellFormed(form.name); Slugify(form.name)
  }

  /** Without an explicit id, a name made of punctuation alone gives the
      empty candidate, an id the server refuses. */
  lemma PunctuationNameEmptyCandidate(form: NewProjectForm)
    requires IsBlank(form.id)
    requires forall i :: 0 <= i < |form.name| ==> !IsSlugChar(form.name[i]) && !IsSpace(form.name[i])
    ensures IdCandidate(form) == []
  {
    SlugifyNoWordChars(form.name);
  }

  /** The record `addProject` stores: the chosen id, the trimmed name and
      each number read with `Number(v || 0)`. */
  function NewRecord(form: NewProjectForm, id: string): Project {
    Project(id, Trim(form.name),
      Number(NumberOrZero(form.count)),
      Number(NumberOrZero(form.timePerTransactionMin)),
      Number(NumberOrZero(form.businessHoursBack)))
  }

  /** The stored record shows the figures the form's values give. */
  lemma NewRecordFigures(form: NewProjectForm, id: string)
    ensures ComputeDerived(NewRecord(form, id))
      == ComputeDerived(Project(id, form.name, form.count, form.timePerTransactionMin, form.businessHoursBack))
  {
    FiniteAfterSaving(form.count);
    FiniteAfterSaving(form.timePerTransactionMin);
    FiniteAfterSaving(form.businessHoursBack);
  }

  /** The calculator screen's list of projects. */
  class Calculator {
    var projects: seq<Project>

    /** The list is empty until the first fetch. */
    constructor ()
      ensures projects == []
    {
      projects := [];
    }

    /** `updateLocal(id, patch)` */
    method UpdateLocal(id: string, patch: ProjectPatch)
      modifies this
      ensures projects == UpdatedLocally(old(projects), id, patch)
    {
      projects := UpdatedLocally(projects, id, patch);
    }

    /** `onCountChange`, `onTimeChange` and `onBizChange` */
    method ChangeField(id: string, f: NumericField, raw: Value)
      requires raw.Text?
      modifies this
      ensures projects == UpdatedLocally(old(projects), id, FieldPatch(f, Edited(raw)))
    {
      var val := if raw.s == "" then raw else Number(ToNumber(raw));
      UpdateLocal(id, FieldPatch(f, val));
    }

    /** `onCountSave`, `onTimeSave` and `onBizSave`, without the request to
        the server that follows. */
    method SaveField(id: string, f: NumericField)
      modifies this
      ensures projects == SavedField(old(projects), id, f)
    {
      var k := FindIndex(projects, id);
      if k < 0 {
        return;
      }
      var normalized := Normalized(FieldOf(projects[k], f));
      UpdateLocal(id, FieldPatch(f, Number(normalized)));
    }

    /** `addProject()`, without the request to the server that follows: a
        blank name is refused and nothing changes; otherwise the new record
        is appended under the first free attempt at the candidate id, so ids
        that were unique stay unique. */
    method AddProject(form: NewProjectForm) returns (r: Result<Project, AddError>)
      modifies this
      ensures IsBlank(form.name) ==> r == Err(NameRequired) && projects == old(projects)
      ensures !IsBlank(form.name) ==> r.Ok? && projects == old(projects) + [r.value]
      ensures r.Ok? ==> r.value == NewRecord(form, r.value.id)
      ensures r.Ok? ==> !HasId(old(projects), r.value.id)
      ensures r.Ok? ==> exists n: nat ::
        FirstFreeAt(IdCandidate(form), old(projects), n) && r.value.id == Attempt(IdCandidate(form), n)
      ensures old(UniqueIds(projects)) ==> UniqueIds(projects)
    {
      if form.name == "" || IsBlank(form.name) {
        return Err(NameRequired);
      }
      var candidate := IdCandidate(form);
      var finalId := FreshId(candidate, projects);
      var toSave := NewRecord(form, finalId);
      if UniqueIds(projects) {
        AppendFreshKeepsUnique(projects, toSave);
      }
      projects := projects + [toSave];
      r := Ok(toSave);
    }

    /** `totals`: the derived figures of every record, summed. */
    method Totals() returns (t: Figures)
      ensures t == SumFigures(projects)
    {
      t := NoFigures;
      for i := 0 to |projects|
        invariant t == SumFigures(projects[..i])
      {
        assert projects[..i + 1][..i] == projects[..i];
        t := Plus(t, ComputeDerived(projects[i]));
      }
      assert projects[..|projects|] == projects;
    }
  }
}
