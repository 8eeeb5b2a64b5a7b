/**
 * The relational store the controllers work on. Its six tables are sequence
 * fields that the write primitives reassign; each primitive enforces what the
 * migrations declare (primary keys, foreign keys, enum columns) and answers with
 * the driver's error message instead of writing when a constraint would break.
 */
module Database {
  import opened Wrappers
  import opened Text
  import opened Rows
  import opened Schema

  /** Stand-ins for the driver's messages on a rejected write. */
  const DuplicateKey: string := "Integrity constraint violation: duplicate entry for key 'PRIMARY'"
  const MissingReference: string := "Integrity constraint violation: a foreign key constraint fails"
  const OutOfDomain: string := "Data truncated for enum column"
  const NullColumn: string := "Integrity constraint violation: column cannot be null"

  /** Every name-like column the controllers lower-case holds no upper-case letter. */
  predicate Lowercased(t: Tables)
  {
    && (forall p :: p in t.projects ==> IsLower(p.name) && IsLower(p.status))
    && (forall a :: a in t.attributes ==> IsLower(a.name) && IsLower(a.valueType))
    && (forall v :: v in t.values ==> IsLower(v.value))
    && (forall u :: u in t.users ==> IsLower(u.firstName) && IsLower(u.lastName) && IsLower(u.email))
  }

  /** Removing rows never breaks the lower-case invariant. */
  lemma LowercasedSubset(t: Tables, r: Tables)
    requires Lowercased(t)
    requires forall p :: p in r.projects ==> p in t.projects
    requires forall a :: a in r.attributes ==> a in t.attributes
    requires forall v :: v in r.values ==> v in t.values
    requires forall u :: u in r.users ==> u in t.users
    ensures Lowercased(r)
  {
  }

  /** Why inserting project `p` would fail, if it would. */
  function ProjectInsertError(t: Tables, p: Project): Option<string>
  {
    if HasKey(t.projects, ProjectKey, p.id) then Some(DuplicateKey)
    else if p.status !in ProjectStatuses then Some(OutOfDomain)
    else None
  }

  /** Why inserting attribute `a` would fail, if it would. */
  function AttributeInsertError(t: Tables, a: Attribute): Option<string>
  {
    if HasKey(t.attributes, AttributeKey, a.id) then Some(DuplicateKey)
    else if a.valueType !in AttributeTypes then Some(OutOfDomain)
    else None
  }

  /** Why writing value row `v` would fail, if it would (`isNew` asks for a new key). */
  function ValueWriteError(t: Tables, v: AttributeValue, isNew: bool): Option<string>
  {
    if isNew && HasKey(t.values, ValueKey, v.id) then Some(DuplicateKey)
    else if !HasKey(t.attributes, AttributeKey, v.attributeId) || !HasKey(t.projects, ProjectKey, v.entityId) then
      Some(MissingReference)
    else None
  }

  /** Why writing timesheet `s` would fail, if it would (`isNew` asks for a new key). */
  function TimesheetWriteError(t: Tables, s: Timesheet, isNew: bool): Option<string>
  {
    if isNew && HasKey(t.timesheets, TimesheetKey, s.id) then Some(DuplicateKey)
    else if !HasKey(t.users, UserKey, s.userId) || !HasKey(t.projects, ProjectKey, s.projectId) then
      Some(MissingReference)
    else None
  }

  /** Why inserting membership `m` would fail, if it would. */
  function MemberInsertError(t: Tables, m: Membership): Option<string>
  {
    if !HasKey(t.users, UserKey, m.userId) || !HasKey(t.projects, ProjectKey, m.projectId) then
      Some(MissingReference)
    else None
  }

  class Database {
    var users: seq<User>
    var projects: seq<Project>
    var attributes: seq<Attribute>
    var values: seq<AttributeValue>
    var timesheets: seq<Timesheet>
    var members: seq<Membership>

    /** The current contents of every table. */
    function State(): Tables
      reads this
    {
      Tables(users, projects, attributes, values, timesheets, members)
    }

    /** The database invariant: the schema's constraints hold. */
    predicate Valid()
      reads this
    {
      Consistent(State())
    }

    /** The controllers' normalisation invariant. */
    predicate Normalised()
      reads this
    {
      Lowercased(State())
    }

    /** A freshly migrated, empty database. */
    constructor ()
      ensures State() == Empty && Valid() && Normalised()
    {
      users, projects, attributes, values, timesheets, members := [], [], [], [], [], [];
    }

    method InsertUser(u: User) returns (err: Option<string>)
      requires Valid()
      modifies this
      ensures Valid()
      ensures err.None? <==> !HasKey(old(users), UserKey, u.id)
      ensures err.Some? ==> err.value == DuplicateKey
      ensures State() == if err.None? then old(State()).(users := old(users) + [u]) else old(State())
    {
      if HasKey(users, UserKey, u.id) {
        return Some(DuplicateKey);
      }
      AppendKeepsUnique(users, u, UserKey);
      users := users + [u];
      assert forall k :: HasKey(old(users), UserKey, k) ==> HasKey(users, UserKey, k) by {
        forall k | HasKey(old(users), UserKey, k) ensures HasKey(users, UserKey, k) {
          var x :| x in old(users) && UserKey(x) == k;
          assert x in users;
        }
      }
      err := None;
    }

    method InsertProject(p: Project) returns (err: Option<string>)
      requires Valid()
      modifies this
      ensures Valid()
      ensures err == ProjectInsertError(old(State()), p)
      ensures State() == if err.None? then old(State()).(projects := old(projects) + [p]) else old(State())
    {
      err := ProjectInsertError(State(), p);
      if err.None? {
        AppendKeepsUnique(projects, p, ProjectKey);
        projects := projects + [p];
        assert forall k :: HasKey(old(projects), ProjectKey, k) ==> HasKey(projects, ProjectKey, k) by {
          forall k | HasKey(old(projects), ProjectKey, k) ensures HasKey(projects, ProjectKey, k) {
            var x :| x in old(projects) && ProjectKey(x) == k;
            assert x in projects;
          }
        }
      }
    }

    method InsertAttribute(a: Attribute) returns (err: Option<string>)
      requires Valid()
      modifies this
      ensures Valid()
      ensures err == AttributeInsertError(old(State()), a)
      ensures State() == if err.None? then old(State()).(attributes := old(attributes) + [a]) else old(State())
    {
      err := AttributeInsertError(State(), a);
      if err.None? {
        AppendKeepsUnique(attributes, a, AttributeKey);
        attributes := attributes + [a];
        assert forall k :: HasKey(old(attributes), AttributeKey, k) ==> HasKey(attributes, AttributeKey, k) by {
          forall k | HasKey(old(attributes), AttributeKey, k) ensures HasKey(attributes, AttributeKey, k) {
            var x :| x in old(attributes) && AttributeKey(x) == k;
            assert x in attributes;
          }
        }
      }
    }

    method InsertValue(v: AttributeValue) returns (err: Option<string>)
      requires Valid()
      modifies this
      ensures Valid()
      ensures err == ValueWriteError(old(State()), v, true)
      ensures State() == if err.None? then old(State()).(values := old(values) + [v]) else old(State())
    {
      err := ValueWriteError(State(), v, true);
      if err.None? {
        AppendKeepsUnique(values, v, ValueKey);
        values := values + [v];
      }
    }

    method InsertTimesheet(s: Timesheet) returns (err: Option<string>)
      requires Valid()
      modifies this
      ensures Valid()
      ensures err == TimesheetWriteError(old(State()), s, true)
      ensures State() == if err.None? then old(State()).(timesheets := old(timesheets) + [s]) else old(State())
    {
      err := TimesheetWriteError(State(), s, true);
      if err.None? {
        AppendKeepsUnique(timesheets, s, TimesheetKey);
        timesheets := timesheets + [s];
      }
    }

    method InsertMember(m: Membership) returns (err: Option<string>)
      requires Valid()
      modifies this
      ensures Valid()
      ensures err == MemberInsertError(old(State()), m)
      ensures State() == if err.None? then old(State()).(members := old(members) + [m]) else old(State())
    {
      err := MemberInsertError(State(), m);
      if err.None? {
        members := members + [m];
      }
    }

    /** `UPDATE projects SET ... WHERE id = p.id` on the row at position `i`. */
    method UpdateProject(i: nat, p: Project) returns (err: Option<string>)
      requires Valid() && i < |projects| && projects[i].id == p.id
      modifies this
      ensures Valid()
      ensures err.None? <==> p.status in ProjectStatuses
      ensures err.Some? ==> err.value == OutOfDomain
      ensures State() == if err.None? then old(State()).(projects := old(projects)[i := p]) else old(State())
    {
      if p.status !in ProjectStatuses {
        return Some(OutOfDomain);
      }
      ReplaceKeepsKeys(projects, i, p, ProjectKey);
      projects := projects[i := p];
      err := None;
    }

    /** `UPDATE attributes SET ... WHERE id = a.id` on the row at position `i`. */
    method UpdateAttribute(i: nat, a: Attribute) returns (err: Option<string>)
      requires Valid() && i < |attributes| && attributes[i].id == a.id
      modifies this
      ensures Valid()
      ensures err.None? <==> a.valueType in AttributeTypes
      ensures err.Some? ==> err.value == OutOfDomain
      ensures State() == if err.None? then old(State()).(attributes := old(attributes)[i := a]) else old(State())
    {
      if a.valueType !in AttributeTypes {
        return Some(OutOfDomain);
      }
      ReplaceKeepsKeys(attributes, i, a, AttributeKey);
      attributes := attributes[i := a];
      err := None;
    }

    /** `UPDATE attribute_values SET ... WHERE id = v.id` on the row at position `i`. */
    method UpdateValue(i: nat, v: AttributeValue) returns (err: Option<string>)
      requires Valid() && i < |values| && values[i].id == v.id
      modifies this
      ensures Valid()
      ensures err == ValueWriteError(old(State()), v, false)
      ensures State() == if err.None? then old(State()).(values := old(values)[i := v]) else old(State())
    {
      err := ValueWriteError(State(), v, false);
      if err.None? {
        ReplaceKeepsKeys(values, i, v, ValueKey);
        values := values[i := v];
      }
    }

    /** `UPDATE timesheets SET ... WHERE id = s.id` on the row at position `i`. */
    method UpdateTimesheet(i: nat, s: Timesheet) returns (err: Option<string>)
      requires Valid() && i < |timesheets| && timesheets[i].id == s.id
      modifies this
      ensures Valid()
      ensures err == TimesheetWriteError(old(State()), s, false)
      ensures State() == if err.None? then old(State()).(timesheets := old(timesheets)[i := s]) else old(State())
    {
      err := TimesheetWriteError(State(), s, false);
      if err.None? {
        ReplaceKeepsKeys(timesheets, i, s, TimesheetKey);
        timesheets := timesheets[i := s];
      }
    }

    /** Replaces every table at once with a state that keeps the constraints. */
    method Assign(t: Tables)
      requires Consistent(t)
      modifies this
      ensures State() == t && Valid()
    {
      users, projects, attributes, values, timesheets, members :=
        t.users, t.projects, t.attributes, t.values, t.timesheets, t.members;
    }

    /** `DELETE FROM projects WHERE id = id`, cascading to its values, timesheets and memberships. */
    method DeleteProject(id: Uuid)
      requires Valid()
      modifies this
      ensures Valid()
      ensures State() == DeleteProjectCascade(old(State()), id)
    {
      ProjectCascadeConsistent(State(), id);
      Assign(DeleteProjectCascade(State(), id));
    }

    /** `DELETE FROM attributes WHERE id = id`, cascading to its values. */
    method DeleteAttribute(id: Uuid)
      requires Valid()
      modifies this
      ensures Valid()
      ensures State() == DeleteAttributeCascade(old(State()), id)
    {
      AttributeCascadeConsistent(State(), id);
      Assign(DeleteAttributeCascade(State(), id));
    }

    /** `DELETE FROM users WHERE id = id`, cascading to their timesheets and memberships. */
    method DeleteUser(id: Uuid)
      requires Valid()
      modifies this
      ensures Valid()
      ensures State() == DeleteUserCascade(old(State()), id)
    {
      UserCascadeConsistent(State(), id);
      Assign(DeleteUserCascade(State(), id));
    }

    /** `DELETE FROM attribute_values WHERE id = id`. */
    method DeleteValueRow(id: Uuid)
      requires Valid()
      modifies this
      ensures Valid()
      ensures State() == DeleteValue(old(State()), id)
    {
      DeleteValueConsistent(State(), id);
      Assign(DeleteValue(State(), id));
    }

    /** `DELETE FROM timesheets WHERE id = id`. */
    method DeleteTimesheetRow(id: Uuid)
      requires Valid()
      modifies this
      ensures Valid()
      ensures State() == DeleteTimesheet(old(State()), id)
    {
      DeleteTimesheetConsistent(State(), id);
      Assign(DeleteTimesheet(State(), id));
    }
  }
}
