/**
 * The `Project` Eloquent model: the key assigned on creation, the mass-assignable
 * columns, the default status, and the `attributeValues` relation.
 */
module ProjectModel {
  import opened Wrappers
  import opened Text
  import opened Rows
  import opened Schema

  /** The `$fillable` columns: the only payload keys `create` and `update` write. */
  const Fillable: set<string> := {"name", "status"}

  /** The `creating` hook: a key that PHP considers empty is replaced by the generated UUID. */
  function CreatingKey(current: Option<string>, generated: Uuid): (id: Uuid)
    ensures current.Some? && !Falsy(current.value) ==> id == current.value
    ensures current.None? || Falsy(current.value) ==> id == generated
  {
    if current.Some? && !Falsy(current.value) then current.value else generated
  }

  /** Mass assignment onto an existing row: only the fillable keys present in `data` change. */
  function Fill(p: Project, data: map<string, string>): (r: Project)
    ensures r.id == p.id
    ensures "name" in data ==> r.name == data["name"]
    ensures "name" !in data ==> r.name == p.name
    ensures "status" in data ==> r.status == data["status"]
    ensures "status" !in data ==> r.status == p.status
  {
    p.(name := if "name" in data then data["name"] else p.name,
       status := if "status" in data then data["status"] else p.status)
  }

  /** Keys outside `$fillable` never reach the row, whatever their value. */
  lemma FillIgnoresGuarded(p: Project, data: map<string, string>, k: string, v: string)
    requires k !in Fillable
    ensures Fill(p, data[k := v]) == Fill(p, data)
  {
  }

  /**
   * `Project::create($data)`: a fresh row with the generated key (the `id` column is not
   * fillable, so the hook always sees it empty), the default status unless one is given,
   * and no row at all when `name` is missing (the column is `NOT NULL`).
   */
  function Create(data: map<string, string>, generated: Uuid): (r: Option<Project>)
    ensures r.Some? <==> "name" in data
    ensures r.Some? ==> r.value.id == generated && r.value.name == data["name"]
    ensures r.Some? && "status" !in data ==> r.value.status == DefaultStatus
    ensures r.Some? && "status" in data ==> r.value.status == data["status"]
  {
    if "name" in data then
      Some(Fill(Project(CreatingKey(None, generated), data["name"], DefaultStatus), data))
    else
      None
  }

  /** The `attributeValues` relation: the value rows whose `entity_id` is the project, in table order. */
  function ValuesOf(values: seq<AttributeValue>, projectId: Uuid): (r: seq<AttributeValue>)
    ensures forall v :: v in r <==> v in values && v.entityId == projectId
    ensures r == [] <==> forall v :: v in values ==> v.entityId != projectId
    ensures |r| <= |values|
  {
    WhereEmpty(values, (v: AttributeValue) => v.entityId == projectId);
    Where(values, (v: AttributeValue) => v.entityId == projectId)
  }
}
