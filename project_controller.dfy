/**
 * `ProjectController`: list, show, create, update and delete projects. Creating a
 * project also records the caller as a member through a second, separate insert.
 * Unexpected failures answer 500 with the exception message as `details`.
 */
module ProjectController {
  import opened Wrappers
  import opened Text
  import opened Rows
  import opened Schema
  import opened Validation
  import opened Responses
  import opened ProjectModel
  import opened Database
  import opened ProjectFilter

  /** Every project status is already lower case. */
  lemma StatusesAreLower()
    ensures forall s :: s in ProjectStatuses ==> IsLower(s)
  {
    assert IsLower("pending") && IsLower("in_progress") && IsLower("completed");
  }

  /** `sometimes|string|in:pending,in_progress,completed` on `status`. */
  predicate StatusAccepted(input: Input)
  {
    "status" !in input || StringIn(input["status"], ProjectStatuses)
  }

  /** The fields `store` rejects: `name` is `required|string|max:255`, `status` optional. */
  function StoreErrors(input: Input): (e: set<string>)
    ensures "name" in e <==> !RequiredString(input, "name", MaxString)
    ensures "status" in e <==> !StatusAccepted(input)
    ensures e <= {"name", "status"}
  {
    (if RequiredString(input, "name", MaxString) then {} else {"name"}) +
    (if StatusAccepted(input) then {} else {"status"})
  }

  /** The fields `update` rejects: the merged route `id` must be a UUID, `name` and `status` are optional. */
  function UpdateErrors(input: Input, id: string): (e: set<string>)
    ensures "id" in e <==> !IsUuid(id)
    ensures "name" in e <==> !OptionalString(input, "name", MaxString)
    ensures "status" in e <==> !StatusAccepted(input)
    ensures e <= {"id", "name", "status"}
  {
    (if IsUuid(id) then {} else {"id"}) +
    (if OptionalString(input, "name", MaxString) then {} else {"name"}) +
    (if StatusAccepted(input) then {} else {"status"})
  }

  /** `$validatedData` after lower-casing: the validated `name` and `status`, whichever were sent. */
  function Normalise(input: Input): (data: map<string, string>)
    requires OptionalString(input, "name", MaxString) && StatusAccepted(input)
    ensures data.Keys <= Fillable
    ensures "name" in data <==> "name" in input
    ensures "name" in data ==> data["name"] == Lower(input["name"].s) && IsLower(data["name"])
    ensures "status" in data <==> "status" in input
    ensures "status" in data ==> data["status"] == input["status"].s && data["status"] in ProjectStatuses
  {
    StatusesAreLower();
    var named: map<string, string> := if "name" in input then map["name" := Lower(input["name"].s)] else map[];
    if "status" in input then named["status" := Lower(input["status"].s)] else named
  }

  /** The project `store` creates from a valid payload with the generated key `newId`. */
  function NewProject(input: Input, newId: Uuid): (p: Project)
    requires StoreErrors(input) == {}
    ensures p.id == newId
    ensures p.name == Lower(input["name"].s)
    ensures p.status == if "status" in input then input["status"].s else DefaultStatus
    ensures p.status in ProjectStatuses && IsLower(p.name) && IsLower(p.status)
  {
    StatusesAreLower();
    Create(Normalise(input), newId).value
  }

  /** The project as `update` leaves it: `Fill` with the normalised payload plus the merged, unfillable `id`. */
  function UpdatedProject(p: Project, input: Input, id: string): (r: Project)
    requires UpdateErrors(input, id) == {}
    requires p.status in ProjectStatuses
    ensures r.id == p.id
    ensures r.name == if "name" in input then Lower(input["name"].s) else p.name
    ensures r.status == if "status" in input then input["status"].s else p.status
    ensures r.status in ProjectStatuses
  {
    var data := Normalise(input);
    FillIgnoresGuarded(p, data, "id", id);
    Fill(p, data["id" := id])
  }

  /** `show`: the project with its values, or 404. */
  function Show(t: Tables, id: string): (r: Response<Listed>)
    ensures r.NotFound? <==> !HasKey(t.projects, ProjectKey, id)
    ensures r.Success? ==> r.status == 200 && r.data.project in t.projects && r.data.project.id == id
    ensures r.Success? ==> forall v :: v in r.data.values <==> v in t.values && v.entityId == id
    ensures r.Success? || r.NotFound?
  {
    match IndexOf(t.projects, ProjectKey, id)
    case None => NotFound
    case Some(i) => Success(200, Listed(t.projects[i], ValuesOf(t.values, id)))
  }

  /** `index`: compose the filter clauses, then keep every project that satisfies them all. */
  method Index(db: Database, filters: Filters) returns (r: Response<seq<Listed>>)
    ensures r == Success(200, Listing(db.State(), filters))
  {
    ghost var t := db.State();
    var query := ComposeQuery(db, filters);
    var projects, values := db.projects, db.values;
    var rows: seq<Listed> := [];
    var i := 0;
    while i < |projects|
      invariant 0 <= i <= |projects|
      invariant rows == ListFrom(t, filters, projects[..i])
    {
      var p := projects[i];
      ListFromStep(t, filters, projects, i);
      if HoldsAll(query, p, values) {
        rows := rows + [Listed(p, ValuesOf(values, p.id))];
      }
      i := i + 1;
    }
    assert projects[..i] == projects;
    r := Success(200, rows);
  }

  /**
   * `store`: validate, lower-case, insert the project, then insert the caller's membership.
   * `caller` is `Auth::id()`; `newId` is the key the `creating` hook generates.
   */
  method Store(db: Database, input: Input, caller: Option<Uuid>, newId: Uuid) returns (r: Response<Project>)
    requires db.Valid()
    modifies db
    ensures db.Valid()
    ensures old(db.Normalised()) ==> db.Normalised()
    ensures StoreErrors(input) != {} ==> r == Invalid(422, StoreErrors(input)) && db.State() == old(db.State())
    ensures StoreErrors(input) == {} && HasKey(old(db.projects), ProjectKey, newId) ==>
              r == ServerError(DuplicateKey) && db.State() == old(db.State())
    ensures StoreErrors(input) == {} && !HasKey(old(db.projects), ProjectKey, newId) ==>
              var p := NewProject(input, newId);
              && db.State().(members := old(db.members)) == old(db.State()).(projects := old(db.projects) + [p])
              && (caller.None? ==> r == ServerError(NullColumn) && db.members == old(db.members))
              && (caller.Some? && !HasKey(old(db.users), UserKey, caller.value) ==>
                    r == ServerError(MissingReference) && db.members == old(db.members))
              && (caller.Some? && HasKey(old(db.users), UserKey, caller.value) ==>
                    r == Success(201, p) && db.members == old(db.members) + [Membership(caller.value, newId)])
  {
    var errors := StoreErrors(input);
    if errors != {} {
      return Invalid(422, errors);
    }
    var p := NewProject(input, newId);
    ghost var before := db.State();
    var err := db.InsertProject(p);
    if err.Some? {
      return ServerError(err.value);
    }
    if caller.None? {
      return ServerError(NullColumn);
    }
    assert p in db.projects;
    var membership := db.InsertMember(Membership(caller.value, p.id));
    if membership.Some? {
      return ServerError(membership.value);
    }
    r := Success(201, p);
  }

  /** `update`: merge the route id, validate, find the project, write the supplied fields. */
  method Update(db: Database, input: Input, id: string) returns (r: Response<Project>)
    requires db.Valid()
    modifies db
    ensures db.Valid()
    ensures old(db.Normalised()) ==> db.Normalised()
    ensures UpdateErrors(input, id) != {} ==> r == Invalid(422, UpdateErrors(input, id)) && db.State() == old(db.State())
    ensures UpdateErrors(input, id) == {} && !HasKey(old(db.projects), ProjectKey, id) ==>
              r == NotFound && db.State() == old(db.State())
    ensures UpdateErrors(input, id) == {} && HasKey(old(db.projects), ProjectKey, id) ==>
              var i := IndexOf(old(db.projects), ProjectKey, id).value;
              var p := UpdatedProject(old(db.projects)[i], input, id);
              r == Success(200, p) && db.State() == old(db.State()).(projects := old(db.projects)[i := p])
  {
    var errors := UpdateErrors(input, id);
    if errors != {} {
      return Invalid(422, errors);
    }
    var found := IndexOf(db.projects, ProjectKey, id);
    if found.None? {
      return NotFound;
    }
    var i := found.value;
    assert db.projects[i] in db.projects;
    var p := UpdatedProject(db.projects[i], input, id);
    ghost var before := db.State();
    var err := db.UpdateProject(i, p);
    assert err.None?;
    r := Success(200, p);
    if Lowercased(before) {
      StatusesAreLower();
      forall q | q in db.projects ensures IsLower(q.name) && IsLower(q.status) {
        var j :| 0 <= j < |db.projects| && db.projects[j] == q;
        if j != i {
          assert q in before.projects;
        }
      }
    }
  }

  /** `destroy`: 404 for an unknown id, otherwise delete the project and everything that cascades. */
  method Destroy(db: Database, id: string) returns (r: Response<()>)
    requires db.Valid()
    modifies db
    ensures db.Valid()
    ensures old(db.Normalised()) ==> db.Normalised()
    ensures !HasKey(old(db.projects), ProjectKey, id) ==> r == NotFound && db.State() == old(db.State())
    ensures HasKey(old(db.projects), ProjectKey, id) ==>
              r == Success(200, ()) && db.State() == DeleteProjectCascade(old(db.State()), id)
  {
    var found := IndexOf(db.projects, ProjectKey, id);
    if found.None? {
      return NotFound;
    }
    ghost var before := db.State();
    db.DeleteProject(id);
    if Lowercased(before) {
      LowercasedSubset(before, db.State());
    }
    r := Success(200, ());
  }

  // ---------------------------------------------------------------------------
  // Round trips between the actions
  // ---------------------------------------------------------------------------

  /** A project just inserted under a new key is shown with no values. */
  lemma ShowAfterInsert(t: Tables, p: Project, members: seq<Membership>)
    requires Consistent(t) && !HasKey(t.projects, ProjectKey, p.id)
    ensures Show(t.(projects := t.projects + [p], members := members), p.id) == Success(200, Listed(p, []))
  {
    var t' := t.(projects := t.projects + [p], members := members);
    var i := IndexOf(t'.projects, ProjectKey, p.id);
    assert t'.projects[|t.projects|] == p;
    assert HasKey(t'.projects, ProjectKey, p.id) by { assert t'.projects[|t.projects|] in t'.projects; }
    assert i.value == |t.projects|;
    forall v | v in t.values ensures v.entityId != p.id {
      assert HasKey(t.projects, ProjectKey, v.entityId);
    }
  }

  /** After a delete the project is no longer shown. */
  lemma ShowAfterDestroy(t: Tables, id: Uuid)
    ensures Show(DeleteProjectCascade(t, id), id) == NotFound
  {
  }

  /** After an update the project is shown with the new fields and its values unchanged. */
  lemma ShowAfterUpdate(t: Tables, input: Input, id: Uuid)
    requires Consistent(t) && UpdateErrors(input, id) == {} && HasKey(t.projects, ProjectKey, id)
    ensures var i := IndexOf(t.projects, ProjectKey, id).value;
            var p := UpdatedProject(t.projects[i], input, id);
            Show(t.(projects := t.projects[i := p]), id) == Success(200, Listed(p, ValuesOf(t.values, id)))
  {
    var i := IndexOf(t.projects, ProjectKey, id).value;
    assert t.projects[i] in t.projects;
    var p := UpdatedProject(t.projects[i], input, id);
    var ps := t.projects[i := p];
    var j := IndexOf(ps, ProjectKey, id);
    assert ps[i] == p;
    assert j.Some? && j.value == i by {
      assert HasKey(ps, ProjectKey, id) by { assert ps[i] in ps; }
    }
  }

  /** A `store` without `status` creates a pending project; the `id` of the payload is ignored. */
  lemma StoreDefaultsToPending(input: Input, newId: Uuid)
    requires StoreErrors(input) == {} && "status" !in input
    ensures NewProject(input, newId).status == "pending"
    ensures "id" in input ==> NewProject(input, newId) == NewProject(input - {"id"}, newId)
  {
  }
}
