/**
 * The relational schema created by the migrations: one row type per table, the
 * enum domains, and the integrity the database enforces (primary keys, foreign
 * keys, enum columns) together with the `ON DELETE CASCADE` rules.
 *
 * Timestamps (`created_at`, `updated_at`) are not modelled.
 */
module Schema {
  import opened Rows

  /** Primary and foreign keys are `uuid` columns, held as strings. */
  type Uuid = string

  /** Domain of `projects.status`. */
  const ProjectStatuses: set<string> := {"pending", "in_progress", "completed"}

  /** Column default of `projects.status`. */
  const DefaultStatus: string := "pending"

  /** Domain of `attributes.type`. */
  const AttributeTypes: set<string> := {"text", "date", "number", "select"}

  /** A row of `users`; `password` holds the stored hash. */
  datatype User = User(id: Uuid, firstName: string, lastName: string, email: string, password: string)

  /** A row of `projects`. */
  datatype Project = Project(id: Uuid, name: string, status: string)

  /** A row of `attributes`; `valueType` is the `type` column. */
  datatype Attribute = Attribute(id: Uuid, name: string, valueType: string)

  /** A row of `attribute_values`; `entityId` refers to a project. */
  datatype AttributeValue = AttributeValue(id: Uuid, attributeId: Uuid, entityId: Uuid, value: string)

  /** A row of `timesheets`; `hours` is an integer column, never negative once validated. */
  datatype Timesheet = Timesheet(id: Uuid, userId: Uuid, projectId: Uuid, taskName: string, date: string, hours: nat)

  /** A row of `project_user`: no id column and no uniqueness on the pair. */
  datatype Membership = Membership(userId: Uuid, projectId: Uuid)

  function UserKey(u: User): Uuid { u.id }
  function ProjectKey(p: Project): Uuid { p.id }
  function AttributeKey(a: Attribute): Uuid { a.id }
  function ValueKey(v: AttributeValue): Uuid { v.id }
  function TimesheetKey(s: Timesheet): Uuid { s.id }

  /** The whole database: every table in insertion order. */
  datatype Tables = Tables(
    users: seq<User>,
    projects: seq<Project>,
    attributes: seq<Attribute>,
    values: seq<AttributeValue>,
    timesheets: seq<Timesheet>,
    members: seq<Membership>)

  /** The empty database right after the migrations ran. */
  const Empty: Tables := Tables([], [], [], [], [], [])

  /** Every `uuid('id')->primary()` column holds distinct values. */
  predicate KeysUnique(t: Tables)
  {
    && UniqueKeys(t.users, UserKey)
    && UniqueKeys(t.projects, ProjectKey)
    && UniqueKeys(t.attributes, AttributeKey)
    && UniqueKeys(t.values, ValueKey)
    && UniqueKeys(t.timesheets, TimesheetKey)
  }

  /** The `enum` columns hold values of their domains. */
  predicate EnumsHold(t: Tables)
  {
    && (forall p :: p in t.projects ==> p.status in ProjectStatuses)
    && (forall a :: a in t.attributes ==> a.valueType in AttributeTypes)
  }

  /** Every foreign key refers to an existing row. */
  predicate ReferencesResolve(t: Tables)
  {
    && (forall v :: v in t.values ==>
          HasKey(t.attributes, AttributeKey, v.attributeId) && HasKey(t.projects, ProjectKey, v.entityId))
    && (forall s :: s in t.timesheets ==>
          HasKey(t.users, UserKey, s.userId) && HasKey(t.projects, ProjectKey, s.projectId))
    && (forall m :: m in t.members ==>
          HasKey(t.users, UserKey, m.userId) && HasKey(t.projects, ProjectKey, m.projectId))
  }

  /** What the database guarantees of its state at all times. */
  predicate Consistent(t: Tables)
  {
    KeysUnique(t) && EnumsHold(t) && ReferencesResolve(t)
  }

  /** The empty database is consistent. */
  lemma EmptyConsistent()
    ensures Consistent(Empty)
  {
  }

  /** Deleting project `id`: its values, timesheets and memberships go with it (`onDelete('cascade')`). */
  function DeleteProjectCascade(t: Tables, id: Uuid): (r: Tables)
    ensures forall p :: p in r.projects <==> p in t.projects && p.id != id
    ensures forall v :: v in r.values <==> v in t.values && v.entityId != id
    ensures forall s :: s in r.timesheets <==> s in t.timesheets && s.projectId != id
    ensures forall m :: m in r.members <==> m in t.members && m.projectId != id
    ensures r.users == t.users && r.attributes == t.attributes
  {
    t.(projects := Where(t.projects, (p: Project) => p.id != id),
       values := Where(t.values, (v: AttributeValue) => v.entityId != id),
       timesheets := Where(t.timesheets, (s: Timesheet) => s.projectId != id),
       members := Where(t.members, (m: Membership) => m.projectId != id))
  }

  /** The project cascade leaves no orphan behind. */
  lemma ProjectCascadeConsistent(t: Tables, id: Uuid)
    requires Consistent(t)
    ensures Consistent(DeleteProjectCascade(t, id))
  {
    var r := DeleteProjectCascade(t, id);
    WhereKeepsUnique(t.projects, (p: Project) => p.id != id, ProjectKey);
    WhereKeepsUnique(t.values, (v: AttributeValue) => v.entityId != id, ValueKey);
    WhereKeepsUnique(t.timesheets, (s: Timesheet) => s.projectId != id, TimesheetKey);
    forall k | k != id && HasKey(t.projects, ProjectKey, k)
      ensures HasKey(r.projects, ProjectKey, k)
    {
      HasKeyAfterWhere(t.projects, (p: Project) => p.id != id, ProjectKey, k);
    }
  }

  /** Deleting attribute `id`: its values go with it. */
  function DeleteAttributeCascade(t: Tables, id: Uuid): (r: Tables)
    ensures forall a :: a in r.attributes <==> a in t.attributes && a.id != id
    ensures forall v :: v in r.values <==> v in t.values && v.attributeId != id
    ensures r.users == t.users && r.projects == t.projects
    ensures r.timesheets == t.timesheets && r.members == t.members
  {
    t.(attributes := Where(t.attributes, (a: Attribute) => a.id != id),
       values := Where(t.values, (v: AttributeValue) => v.attributeId != id))
  }

  /** The attribute cascade leaves no orphan behind. */
  lemma AttributeCascadeConsistent(t: Tables, id: Uuid)
    requires Consistent(t)
    ensures Consistent(DeleteAttributeCascade(t, id))
  {
    var r := DeleteAttributeCascade(t, id);
    WhereKeepsUnique(t.attributes, (a: Attribute) => a.id != id, AttributeKey);
    WhereKeepsUnique(t.values, (v: AttributeValue) => v.attributeId != id, ValueKey);
    forall k | k != id && HasKey(t.attributes, AttributeKey, k)
      ensures HasKey(r.attributes, AttributeKey, k)
    {
      HasKeyAfterWhere(t.attributes, (a: Attribute) => a.id != id, AttributeKey, k);
    }
  }

  /** Deleting user `id`: their timesheets and memberships go with them. */
  function DeleteUserCascade(t: Tables, id: Uuid): (r: Tables)
    ensures forall u :: u in r.users <==> u in t.users && u.id != id
    ensures forall s :: s in r.timesheets <==> s in t.timesheets && s.userId != id
    ensures forall m :: m in r.members <==> m in t.members && m.userId != id
    ensures r.projects == t.projects && r.attributes == t.attributes && r.values == t.values
  {
    t.(users := Where(t.users, (u: User) => u.id != id),
       timesheets := Where(t.timesheets, (s: Timesheet) => s.userId != id),
       members := Where(t.members, (m: Membership) => m.userId != id))
  }

  /** The user cascade leaves no orphan behind. */
  lemma UserCascadeConsistent(t: Tables, id: Uuid)
    requires Consistent(t)
    ensures Consistent(DeleteUserCascade(t, id))
  {
    var r := DeleteUserCascade(t, id);
    WhereKeepsUnique(t.users, (u: User) => u.id != id, UserKey);
    WhereKeepsUnique(t.timesheets, (s: Timesheet) => s.userId != id, TimesheetKey);
    forall k | k != id && HasKey(t.users, UserKey, k)
      ensures HasKey(r.users, UserKey, k)
    {
      HasKeyAfterWhere(t.users, (u: User) => u.id != id, UserKey, k);
    }
  }

  /** Deleting attribute value `id`: nothing refers to it. */
  function DeleteValue(t: Tables, id: Uuid): (r: Tables)
    ensures forall v :: v in r.values <==> v in t.values && v.id != id
    ensures r == t.(values := r.values)
  {
    t.(values := Where(t.values, (v: AttributeValue) => v.id != id))
  }

  /** Deleting a value keeps the database consistent. */
  lemma DeleteValueConsistent(t: Tables, id: Uuid)
    requires Consistent(t)
    ensures Consistent(DeleteValue(t, id))
  {
    WhereKeepsUnique(t.values, (v: AttributeValue) => v.id != id, ValueKey);
  }

  /** Deleting timesheet `id`: nothing refers to it. */
  function DeleteTimesheet(t: Tables, id: Uuid): (r: Tables)
    ensures forall s :: s in r.timesheets <==> s in t.timesheets && s.id != id
    ensures r == t.(timesheets := r.timesheets)
  {
    t.(timesheets := Where(t.timesheets, (s: Timesheet) => s.id != id))
  }

  /** Deleting a timesheet keeps the database consistent. */
  lemma DeleteTimesheetConsistent(t: Tables, id: Uuid)
    requires Consistent(t)
    ensures Consistent(DeleteTimesheet(t, id))
  {
    WhereKeepsUnique(t.timesheets, (s: Timesheet) => s.id != id, TimesheetKey);
  }

  /** The schema puts no unique index on `attributes.name`: two rows may share a name. */
  lemma AttributeNamesMayRepeat()
    ensures var t := Empty.(attributes := [Attribute("a1", "priority", "text"), Attribute("a2", "priority", "select")]);
            Consistent(t) && t.attributes[0].name == t.attributes[1].name
  {
    var t := Empty.(attributes := [Attribute("a1", "priority", "text"), Attribute("a2", "priority", "select")]);
    assert UniqueKeys(t.attributes, AttributeKey);
  }

  /** `project_user` has no key at all: the same (user, project) pair may be stored twice. */
  lemma MembershipPairsMayRepeat()
    ensures var t := Empty.(users := [User("u", "ann", "lee", "ann@example.com", "h")],
                            projects := [Project("p", "apollo", "pending")],
                            members := [Membership("u", "p"), Membership("u", "p")]);
            Consistent(t) && t.members[0] == t.members[1]
  {
    var t := Empty.(users := [User("u", "ann", "lee", "ann@example.com", "h")],
                    projects := [Project("p", "apollo", "pending")],
                    members := [Membership("u", "p"), Membership("u", "p")]);
    assert HasKey(t.users, UserKey, "u") by { assert t.users[0] in t.users; }
    assert HasKey(t.projects, ProjectKey, "p") by { assert t.projects[0] in t.projects; }
  }
}
