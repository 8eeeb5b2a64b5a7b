/**
 * `TimesheetController`: list, show, create, update and delete timesheets. Listings
 * attach the project and a three-column summary of the user. `store` keeps the task
 * name as submitted, `update` lower-cases a supplied one. Unexpected failures answer
 * 500 with a fixed message.
 */
module TimesheetController {
  import opened Wrappers
  import opened Text
  import opened Rows
  import opened Schema
  import opened Validation
  import opened Responses
  import opened Database

  /** The user columns a listing exposes: `select('id', 'first_name', 'email')`. */
  datatype UserSummary = UserSummary(id: Uuid, firstName: string, email: string)

  /** A timesheet with its eager-loaded relations (absent when the referenced row is missing). */
  datatype SheetView = SheetView(sheet: Timesheet, user: Option<UserSummary>, project: Option<Project>)

  /** `uuid|exists:users,id` on a present value. */
  predicate UserRef(t: Tables, v: Value)
  {
    UuidValue(v) && HasKey(t.users, UserKey, v.s)
  }

  /** `uuid|exists:projects,id` on a present value. */
  predicate ProjectRef(t: Tables, v: Value)
  {
    UuidValue(v) && HasKey(t.projects, ProjectKey, v.s)
  }

  /** `date` on a present value; the date grammar itself is the parameter `isDate`. */
  predicate DateValue(v: Value, isDate: string -> bool)
  {
    v.Str? && v.s != "" && isDate(v.s)
  }

  /** The fields `store` rejects; every field is `required`. */
  function StoreErrors(t: Tables, input: Input, isDate: string -> bool): (e: set<string>)
    ensures "task_name" in e <==> !RequiredString(input, "task_name", MaxString)
    ensures "date" in e <==> !("date" in input && DateValue(input["date"], isDate))
    ensures "hours" in e <==> !("hours" in input && NonNegativeNumber(input["hours"]))
    ensures "user_id" in e <==> !("user_id" in input && UserRef(t, input["user_id"]))
    ensures "project_id" in e <==> !("project_id" in input && ProjectRef(t, input["project_id"]))
    ensures e <= {"task_name", "date", "hours", "user_id", "project_id"}
  {
    (if RequiredString(input, "task_name", MaxString) then {} else {"task_name"}) +
    (if "date" in input && DateValue(input["date"], isDate) then {} else {"date"}) +
    (if "hours" in input && NonNegativeNumber(input["hours"]) then {} else {"hours"}) +
    (if "user_id" in input && UserRef(t, input["user_id"]) then {} else {"user_id"}) +
    (if "project_id" in input && ProjectRef(t, input["project_id"]) then {} else {"project_id"})
  }

  /** The fields `update` rejects: the merged route `id` must be a UUID, every other rule applies only when present. */
  function UpdateErrors(t: Tables, input: Input, id: string, isDate: string -> bool): (e: set<string>)
    ensures "id" in e <==> !IsUuid(id)
    ensures "task_name" in e <==> !OptionalString(input, "task_name", MaxString)
    ensures "date" in e <==> "date" in input && !DateValue(input["date"], isDate)
    ensures "hours" in e <==> "hours" in input && !NonNegativeNumber(input["hours"])
    ensures "user_id" in e <==> "user_id" in input && !UserRef(t, input["user_id"])
    ensures "project_id" in e <==> "project_id" in input && !ProjectRef(t, input["project_id"])
    ensures e <= {"id", "task_name", "date", "hours", "user_id", "project_id"}
  {
    (if IsUuid(id) then {} else {"id"}) +
    (if OptionalString(input, "task_name", MaxString) then {} else {"task_name"}) +
    (if "date" !in input || DateValue(input["date"], isDate) then {} else {"date"}) +
    (if "hours" !in input || NonNegativeNumber(input["hours"]) then {} else {"hours"}) +
    (if "user_id" !in input || UserRef(t, input["user_id"]) then {} else {"user_id"}) +
    (if "project_id" !in input || ProjectRef(t, input["project_id"]) then {} else {"project_id"})
  }

  /** The fields `destroy` rejects: the merged route `id` is `required|uuid|exists:timesheets,id`. */
  function DestroyErrors(t: Tables, id: string): (e: set<string>)
    ensures e == {} <==> IsUuid(id) && HasKey(t.timesheets, TimesheetKey, id)
    ensures e <= {"id"}
  {
    if IsUuid(id) && HasKey(t.timesheets, TimesheetKey, id) then {} else {"id"}
  }

  /**
   * The row `store` inserts under the generated key `newId`: every field as submitted. The
   * lower-casing of `task_name` happens after the insert, on a copy nothing reads.
   */
  function NewTimesheet(t: Tables, input: Input, newId: Uuid, isDate: string -> bool): (s: Timesheet)
    requires StoreErrors(t, input, isDate) == {}
    ensures s.id == newId
    ensures s.taskName == input["task_name"].s
    ensures s.date == input["date"].s && isDate(s.date)
    ensures s.hours == NumberOf(input["hours"])
    ensures s.userId == input["user_id"].s && HasKey(t.users, UserKey, s.userId)
    ensures s.projectId == input["project_id"].s && HasKey(t.projects, ProjectKey, s.projectId)
  {
    Timesheet(newId, input["user_id"].s, input["project_id"].s, input["task_name"].s,
              input["date"].s, NumberOf(input["hours"]))
  }

  /** The row as `update` leaves it: only the supplied fields change, a supplied task name lower-cased. */
  function UpdatedTimesheet(s: Timesheet, t: Tables, input: Input, id: string, isDate: string -> bool): (r: Timesheet)
    requires UpdateErrors(t, input, id, isDate) == {}
    ensures r.id == s.id
    ensures r.taskName == if "task_name" in input then Lower(input["task_name"].s) else s.taskName
    ensures r.date == if "date" in input then input["date"].s else s.date
    ensures r.hours == if "hours" in input then NumberOf(input["hours"]) else s.hours
    ensures r.userId == if "user_id" in input then input["user_id"].s else s.userId
    ensures r.projectId == if "project_id" in input then input["project_id"].s else s.projectId
  {
    s.(taskName := if "task_name" in input then Lower(input["task_name"].s) else s.taskName,
       date := if "date" in input then input["date"].s else s.date,
       hours := if "hours" in input then NumberOf(input["hours"]) else s.hours,
       userId := if "user_id" in input then input["user_id"].s else s.userId,
       projectId := if "project_id" in input then input["project_id"].s else s.projectId)
  }

  /** The summary of the user with key `id`, if there is one. */
  function SummaryOf(users: seq<User>, id: Uuid): (r: Option<UserSummary>)
    ensures r.None? <==> !HasKey(users, UserKey, id)
    ensures r.Some? ==> exists u :: u in users && r.value == UserSummary(u.id, u.firstName, u.email)
    ensures r.Some? ==> r.value.id == id
  {
    match IndexOf(users, UserKey, id)
    case None => None
    case Some(i) => Some(UserSummary(users[i].id, users[i].firstName, users[i].email))
  }

  /** The project with key `id`, if there is one. */
  function ProjectOf(projects: seq<Project>, id: Uuid): (r: Option<Project>)
    ensures r.None? <==> !HasKey(projects, ProjectKey, id)
    ensures r.Some? ==> r.value in projects && r.value.id == id
  {
    match IndexOf(projects, ProjectKey, id)
    case None => None
    case Some(i) => Some(projects[i])
  }

  /** A timesheet with its project and user summary attached. */
  function ViewOf(t: Tables, s: Timesheet): (v: SheetView)
    ensures v.sheet == s
    ensures v.user.Some? <==> HasKey(t.users, UserKey, s.userId)
    ensures v.project.Some? <==> HasKey(t.projects, ProjectKey, s.projectId)
  {
    SheetView(s, SummaryOf(t.users, s.userId), ProjectOf(t.projects, s.projectId))
  }

  /**
   * `index`: every timesheet with its relations. The query has no `ORDER BY`; the model
   * fixes table order so that each entry can be tied to its row.
   */
  function Index(t: Tables): (r: Response<seq<SheetView>>)
    ensures r.Success? && r.status == 200 && |r.data| == |t.timesheets|
    ensures forall i :: 0 <= i < |t.timesheets| ==> r.data[i] == ViewOf(t, t.timesheets[i])
  {
    Success(200, seq(|t.timesheets|, i requires 0 <= i < |t.timesheets| => ViewOf(t, t.timesheets[i])))
  }

  /** `show`: the timesheet with key `id` and its relations, or 404. */
  function Show(t: Tables, id: string): (r: Response<SheetView>)
    ensures r.NotFound? <==> !HasKey(t.timesheets, TimesheetKey, id)
    ensures r.Success? ==> r.status == 200 && r.data.sheet in t.timesheets && r.data.sheet.id == id
    ensures r.Success? ==> r == Success(200, ViewOf(t, r.data.sheet))
    ensures r.Success? || r.NotFound?
  {
    match IndexOf(t.timesheets, TimesheetKey, id)
    case None => NotFound
    case Some(i) => Success(200, ViewOf(t, t.timesheets[i]))
  }

  /** `store`: validate, then insert the row as submitted; `newId` is the key the `creating` hook generates. */
  method Store(db: Database, input: Input, newId: Uuid, isDate: string -> bool) returns (r: Response<Timesheet>)
    requires db.Valid()
    modifies db
    ensures db.Valid()
    ensures old(db.Normalised()) ==> db.Normalised()
    ensures StoreErrors(old(db.State()), input, isDate) != {} ==>
              r == Invalid(422, StoreErrors(old(db.State()), input, isDate)) && db.State() == old(db.State())
    ensures StoreErrors(old(db.State()), input, isDate) == {} && HasKey(old(db.timesheets), TimesheetKey, newId) ==>
              r == ServerError(UnexpectedError) && db.State() == old(db.State())
    ensures StoreErrors(old(db.State()), input, isDate) == {} && !HasKey(old(db.timesheets), TimesheetKey, newId) ==>
              var s := NewTimesheet(old(db.State()), input, newId, isDate);
              r == Success(201, s) && db.State() == old(db.State()).(timesheets := old(db.timesheets) + [s])
  {
    var errors := StoreErrors(db.State(), input, isDate);
    if errors != {} {
      return Invalid(422, errors);
    }
    var s := NewTimesheet(db.State(), input, newId, isDate);
    var err := db.InsertTimesheet(s);
    if err.Some? {
      return ServerError(UnexpectedError);
    }
    r := Success(201, s);
  }

  /** `update`: merge the route id, validate, find the row, write the supplied fields. */
  method Update(db: Database, input: Input, id: string, isDate: string -> bool) returns (r: Response<Timesheet>)
    requires db.Valid()
    modifies db
    ensures db.Valid()
    ensures old(db.Normalised()) ==> db.Normalised()
    ensures UpdateErrors(old(db.State()), input, id, isDate) != {} ==>
              r == Invalid(422, UpdateErrors(old(db.State()), input, id, isDate)) && db.State() == old(db.State())
    ensures UpdateErrors(old(db.State()), input, id, isDate) == {} && !HasKey(old(db.timesheets), TimesheetKey, id) ==>
              r == NotFound && db.State() == old(db.State())
    ensures UpdateErrors(old(db.State()), input, id, isDate) == {} && HasKey(old(db.timesheets), TimesheetKey, id) ==>
              var i := IndexOf(old(db.timesheets), TimesheetKey, id).value;
              var s := UpdatedTimesheet(old(db.timesheets)[i], old(db.State()), input, id, isDate);
              r == Success(200, s) && db.State() == old(db.State()).(timesheets := old(db.timesheets)[i := s])
  {
    var errors := UpdateErrors(db.State(), input, id, isDate);
    if errors != {} {
      return Invalid(422, errors);
    }
    var found := IndexOf(db.timesheets, TimesheetKey, id);
    if found.None? {
      return NotFound;
    }
    var i := found.value;
    var current := db.timesheets[i];
    assert current in db.timesheets;
    var s := UpdatedTimesheet(current, db.State(), input, id, isDate);
    var err := db.UpdateTimesheet(i, s);
    assert err.None?;
    r := Success(200, s);
  }

  /** `destroy`: an id that is not an existing timesheet's key is a validation error, never a 404. */
  method Destroy(db: Database, id: string) returns (r: Response<()>)
    requires db.Valid()
    modifies db
    ensures db.Valid()
    ensures old(db.Normalised()) ==> db.Normalised()
    ensures r != NotFound
    ensures DestroyErrors(old(db.State()), id) != {} ==>
              r == Invalid(422, {"id"}) && db.State() == old(db.State())
    ensures DestroyErrors(old(db.State()), id) == {} ==>
              r == Success(200, ()) && db.State() == DeleteTimesheet(old(db.State()), id)
  {
    var errors := DestroyErrors(db.State(), id);
    if errors != {} {
      return Invalid(422, errors);
    }
    var found := IndexOf(db.timesheets, TimesheetKey, id);
    assert found.Some?;
    db.DeleteTimesheetRow(id);
    r := Success(200, ());
  }

  // ---------------------------------------------------------------------------
  // Properties
  // ---------------------------------------------------------------------------

  /** In a consistent database every listed timesheet carries its user summary and its project. */
  lemma ViewsComplete(t: Tables, s: Timesheet)
    requires Consistent(t) && s in t.timesheets
    ensures ViewOf(t, s).user.Some? && ViewOf(t, s).user.value.id == s.userId
    ensures ViewOf(t, s).project.Some? && ViewOf(t, s).project.value.id == s.projectId
  {
  }

  /** A user's summary carries exactly their id, first name and email. */
  lemma SummaryOfUser(users: seq<User>, u: User)
    requires UniqueKeys(users, UserKey) && u in users
    ensures SummaryOf(users, u.id) == Some(UserSummary(u.id, u.firstName, u.email))
  {
    var i := IndexOf(users, UserKey, u.id).value;
    var j :| 0 <= j < |users| && users[j] == u;
    assert i == j;
  }

  /** The row `store` keeps and the row an `update` with the same task name writes differ exactly in case. */
  lemma StoreKeepsCaseUpdateLowers(t: Tables, input: Input, newId: Uuid, isDate: string -> bool, s: Timesheet)
    requires StoreErrors(t, input, isDate) == {}
    requires UpdateErrors(t, input, s.id, isDate) == {}
    ensures NewTimesheet(t, input, newId, isDate).taskName == input["task_name"].s
    ensures UpdatedTimesheet(s, t, input, s.id, isDate).taskName == Lower(NewTimesheet(t, input, newId, isDate).taskName)
  {
  }

  /** `hours` sent as a decimal string is accepted and stored exactly like the same number sent as JSON. */
  lemma HoursAsDigitsOrNumber(t: Tables, input: Input, newId: Uuid, isDate: string -> bool, n: nat)
    requires StoreErrors(t, input["hours" := Num(n)], isDate) == {}
    ensures StoreErrors(t, input["hours" := Str(Decimal(n))], isDate) == {}
    ensures NewTimesheet(t, input["hours" := Str(Decimal(n))], newId, isDate) ==
            NewTimesheet(t, input["hours" := Num(n)], newId, isDate)
  {
    var asNumber := input["hours" := Num(n)];
    var asDigits := input["hours" := Str(Decimal(n))];
    assert forall k :: k != "hours" ==> (k in asDigits <==> k in asNumber);
    assert forall k :: k != "hours" && k in asDigits ==> asDigits[k] == asNumber[k];
    DecimalRoundTrip(n);
  }
}
