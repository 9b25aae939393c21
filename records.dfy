/** The project record both halves of the application exchange, the shallow
    merge `{ ...record, ...patch }`, and lookups by id. */
module Records {
  import opened JsValues

  datatype Option<T> = None | Some(value: T)

  datatype Result<T, E> = Ok(value: T) | Err(error: E)

  /** A stored automation project. An id of "" stands for a missing or empty id. */
  datatype Project = Project(
    id: string,
    name: string,
    count: Value,
    timePerTransactionMin: Value,
    businessHoursBack: Value)

  /** A partial record: `None` is a key the object does not have. */
  datatype ProjectPatch = ProjectPatch(
    id: Option<string>,
    name: Option<string>,
    count: Option<Value>,
    timePerTransactionMin: Option<Value>,
    businessHoursBack: Option<Value>)

  const NoChanges := ProjectPatch(None, None, None, None, None)

  function Pick<T>(patched: Option<T>, current: T): T {
    if patched.Some? then patched.value else current
  }

  /** `{ ...p, ...patch }` */
  function Merge(p: Project, patch: ProjectPatch): Project {
    Project(
      Pick(patch.id, p.id),
      Pick(patch.name, p.name),
      Pick(patch.count, p.count),
      Pick(patch.timePerTransactionMin, p.timePerTransactionMin),
      Pick(patch.businessHoursBack, p.businessHoursBack))
  }

  /** `{ ...a, ...b }` on two partial records. */
  function Then(a: ProjectPatch, b: ProjectPatch): ProjectPatch {
    ProjectPatch(
      if b.id.Some? then b.id else a.id,
      if b.name.Some? then b.name else a.name,
      if b.count.Some? then b.count else a.count,
      if b.timePerTransactionMin.Some? then b.timePerTransactionMin else a.timePerTransactionMin,
      if b.businessHoursBack.Some? then b.businessHoursBack else a.businessHoursBack)
  }

  /** A key present in the patch overwrites the record; a key absent from it
      keeps the record's value; merging nothing changes nothing, merging the
      same patch twice is merging it once, and two merges in a row are one
      merge of the combined patch. */
  lemma MergeLaws(p: Project, a: ProjectPatch, b: ProjectPatch)
    ensures a.id.Some? ==> Merge(p, a).id == a.id.value
    ensures a.id.None? ==> Merge(p, a).id == p.id
    ensures a.name.Some? ==> Merge(p, a).name == a.name.value
    ensures a.name.None? ==> Merge(p, a).name == p.name
    ensures a.count.Some? ==> Merge(p, a).count == a.count.value
    ensures a.count.None? ==> Merge(p, a).count == p.count
    ensures a.timePerTransactionMin.Some? ==> Merge(p, a).timePerTransactionMin == a.timePerTransactionMin.value
    ensures a.timePerTransactionMin.None? ==> Merge(p, a).timePerTransactionMin == p.timePerTransactionMin
    ensures a.businessHoursBack.Some? ==> Merge(p, a).businessHoursBack == a.businessHoursBack.value
    ensures a.businessHoursBack.None? ==> Merge(p, a).businessHoursBack == p.businessHoursBack
    ensures Merge(p, NoChanges) == p
    ensures Merge(Merge(p, a), a) == Merge(p, a)
    ensures Merge(Merge(p, a), b) == Merge(p, Then(a, b))
  {
  }

  /** `ps.some(p => p.id === id)` */
  predicate HasId(ps: seq<Project>, id: string) {
    exists i :: 0 <= i < |ps| && ps[i].id == id
  }

  /** No two records share an id. */
  predicate UniqueIds(ps: seq<Project>) {
    forall i, j :: 0 <= i < j < |ps| ==> ps[i].id != ps[j].id
  }

  /** The set of ids in use. */
  function Ids(ps: seq<Project>): (r: set<string>)
    ensures |r| <= |ps|
    ensures forall id :: id in r <==> HasId(ps, id)
  {
    if ps == [] then {}
    else
      var rest := Ids(ps[..|ps| - 1]);
      assert forall id :: HasId(ps, id) <==> HasId(ps[..|ps| - 1], id) || ps[|ps| - 1].id == id by {
        forall id | HasId(ps, id) ensures HasId(ps[..|ps| - 1], id) || ps[|ps| - 1].id == id {
          var i :| 0 <= i < |ps| && ps[i].id == id;
          if i < |ps| - 1 { assert ps[..|ps| - 1][i] == ps[i]; }
        }
      }
      rest + {ps[|ps| - 1].id}
  }

  /** `ps.findIndex(p => p.id === id)`: the first index holding `id`, or -1. */
  function FindIndex(ps: seq<Project>, id: string): (r: int)
    ensures -1 <= r < |ps|
    ensures r == -1 <==> !HasId(ps, id)
    ensures r >= 0 ==> ps[r].id == id && forall j :: 0 <= j < r ==> ps[j].id != id
  {
    if ps == [] then -1
    else if ps[0].id == id then 0
    else
      var k := FindIndex(ps[1..], id);
      assert HasId(ps, id) ==> HasId(ps[1..], id) by {
        if HasId(ps, id) {
          var i :| 0 <= i < |ps| && ps[i].id == id;
          assert ps[1..][i - 1] == ps[i];
        }
      }
      if k < 0 then -1 else k + 1
  }

  /** With unique ids the record holding `id` is the one at FindIndex. */
  lemma FindIndexUnique(ps: seq<Project>, i: nat, id: string)
    requires UniqueIds(ps) && i < |ps| && ps[i].id == id
    ensures FindIndex(ps, id) == i
  {
  }

  /** Appending a record whose id is not in use keeps ids unique. */
  lemma AppendFreshKeepsUnique(ps: seq<Project>, p: Project)
    requires UniqueIds(ps) && !HasId(ps, p.id)
    ensures UniqueIds(ps + [p])
  {
  }
}
