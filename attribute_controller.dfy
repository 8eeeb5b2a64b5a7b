/**
 * `AttributeController`: list, show, create, update and delete attribute definitions.
 * Names must be unique as submitted; names and types are stored lower-cased.
 * Unexpected failures answer 500 with a fixed message that hides the exception.
 */
module AttributeController {
  import opened Wrappers
  import opened Text
  import opened Rows
  import opened Schema
  import opened Validation
  import opened Responses
  import opened Database

  /** Every attribute type is already lower case. */
  lemma TypesAreLower()
    ensures forall s :: s in AttributeTypes ==> IsLower(s)
  {
    assert IsLower("text") && IsLower("date") && IsLower("number") && IsLower("select");
  }

  /**
   * `unique:attributes,name[,except]`: some row other than `except` already has exactly
   * this name. The comparison is on the name as submitted, not lower-cased.
   */
  predicate NameTaken(attributes: seq<Attribute>, name: string, except: Option<Uuid>)
  {
    exists a :: a in attributes && a.name == name && (except.None? || a.id != except.value)
  }

  /** `name` on `store`: `required|string|unique:attributes,name|max:255`. */
  predicate StoreNameAccepted(t: Tables, input: Input)
  {
    RequiredString(input, "name", MaxString) && !NameTaken(t.attributes, input["name"].s, None)
  }

  /** `name` on `update`: `sometimes|string|unique:attributes,name,<id>|max:255`. */
  predicate UpdateNameAccepted(t: Tables, input: Input, id: string)
  {
    "name" !in input ||
    (StringUpTo(input["name"], MaxString) && !NameTaken(t.attributes, input["name"].s, Some(id)))
  }

  /** `type`: `string|in:text,date,number,select`, required on `store` when `required`. */
  predicate TypeAccepted(input: Input, required: bool)
  {
    if "type" in input then StringIn(input["type"], AttributeTypes) else !required
  }

  /** The fields `store` rejects. */
  function StoreErrors(t: Tables, input: Input): (e: set<string>)
    ensures "name" in e <==> !StoreNameAccepted(t, input)
    ensures "type" in e <==> !TypeAccepted(input, true)
    ensures e <= {"name", "type"}
  {
    (if StoreNameAccepted(t, input) then {} else {"name"}) +
    (if TypeAccepted(input, true) then {} else {"type"})
  }

  /** The fields `update` rejects; nothing here depends on whether `id` exists. */
  function UpdateErrors(t: Tables, input: Input, id: string): (e: set<string>)
    ensures "name" in e <==> !UpdateNameAccepted(t, input, id)
    ensures "type" in e <==> !TypeAccepted(input, false)
    ensures e <= {"name", "type"}
  {
    (if UpdateNameAccepted(t, input, id) then {} else {"name"}) +
    (if TypeAccepted(input, false) then {} else {"type"})
  }

  /** The attribute `store` creates under the generated key `newId`: lower-cased name and type. */
  function NewAttribute(t: Tables, input: Input, newId: Uuid): (a: Attribute)
    requires StoreErrors(t, input) == {}
    ensures a.id == newId
    ensures a.name == Lower(input["name"].s) && IsLower(a.name)
    ensures a.valueType == input["type"].s && a.valueType in AttributeTypes && IsLower(a.valueType)
  {
    TypesAreLower();
    Attribute(newId, Lower(input["name"].s), Lower(input["type"].s))
  }

  /** The attribute as `update` leaves it: only the supplied fields change, lower-cased. */
  function UpdatedAttribute(a: Attribute, t: Tables, input: Input, id: string): (r: Attribute)
    requires UpdateErrors(t, input, id) == {}
    requires a.valueType in AttributeTypes
    ensures r.id == a.id
    ensures r.name == if "name" in input then Lower(input["name"].s) else a.name
    ensures r.valueType == if "type" in input then input["type"].s else a.valueType
    ensures r.valueType in AttributeTypes
  {
    TypesAreLower();
    a.(name := if "name" in input then Lower(input["name"].s) else a.name,
       valueType := if "type" in input then Lower(input["type"].s) else a.valueType)
  }

  /**
   * `index`: every attribute. The contract is deliberately order-free: `all()` issues no
   * `ORDER BY`, so SQL promises the rows and their number but no order.
   */
  function Index(t: Tables): (r: Response<seq<Attribute>>)
    ensures r.Success? && r.status == 200 && |r.data| == |t.attributes|
    ensures forall a :: a in r.data <==> a in t.attributes
  {
    Success(200, t.attributes)
  }

  /** `show`: the attribute with key `id`, or 404. */
  function Show(t: Tables, id: string): (r: Response<Attribute>)
    ensures r.NotFound? <==> !HasKey(t.attributes, AttributeKey, id)
    ensures r.Success? ==> r.status == 200 && r.data in t.attributes && r.data.id == id
    ensures r.Success? || r.NotFound?
  {
    match IndexOf(t.attributes, AttributeKey, id)
    case None => NotFound
    case Some(i) => Success(200, t.attributes[i])
  }

  /** `store`: validate, lower-case, insert; `newId` is the key the `creating` hook generates. */
  method Store(db: Database, input: Input, newId: Uuid) returns (r: Response<Attribute>)
    requires db.Valid()
    modifies db
    ensures db.Valid()
    ensures old(db.Normalised()) ==> db.Normalised()
    ensures StoreErrors(old(db.State()), input) != {} ==>
              r == Invalid(422, StoreErrors(old(db.State()), input)) && db.State() == old(db.State())
    ensures StoreErrors(old(db.State()), input) == {} && HasKey(old(db.attributes), AttributeKey, newId) ==>
              r == ServerError(UnexpectedError) && db.State() == old(db.State())
    ensures StoreErrors(old(db.State()), input) == {} && !HasKey(old(db.attributes), AttributeKey, newId) ==>
              var a := NewAttribute(old(db.State()), input, newId);
              r == Success(201, a) && db.State() == old(db.State()).(attributes := old(db.attributes) + [a])
  {
    var errors := StoreErrors(db.State(), input);
    if errors != {} {
      return Invalid(422, errors);
    }
    var a := NewAttribute(db.State(), input, newId);
    var err := db.InsertAttribute(a);
    if err.Some? {
      return ServerError(UnexpectedError);
    }
    r := Success(201, a);
  }

  /** `update`: validate first, then find the attribute, then write the supplied fields. */
  method Update(db: Database, input: Input, id: string) returns (r: Response<Attribute>)
    requires db.Valid()
    modifies db
    ensures db.Valid()
    ensures old(db.Normalised()) ==> db.Normalised()
    ensures UpdateErrors(old(db.State()), input, id) != {} ==>
              r == Invalid(422, UpdateErrors(old(db.State()), input, id)) && db.State() == old(db.State())
    ensures UpdateErrors(old(db.State()), input, id) == {} && !HasKey(old(db.attributes), AttributeKey, id) ==>
              r == NotFound && db.State() == old(db.State())
    ensures UpdateErrors(old(db.State()), input, id) == {} && HasKey(old(db.attributes), AttributeKey, id) ==>
              var i := IndexOf(old(db.attributes), AttributeKey, id).value;
              var a := UpdatedAttribute(old(db.attributes)[i], old(db.State()), input, id);
              r == Success(200, a) && db.State() == old(db.State()).(attributes := old(db.attributes)[i := a])
  {
    var errors := UpdateErrors(db.State(), input, id);
    if errors != {} {
      return Invalid(422, errors);
    }
    var found := IndexOf(db.attributes, AttributeKey, id);
    if found.None? {
      return NotFound;
    }
    var i := found.value;
    assert db.attributes[i] in db.attributes;
    ghost var before := db.State();
    var a := UpdatedAttribute(db.attributes[i], db.State(), input, id);
    var err := db.UpdateAttribute(i, a);
    assert err.None?;
    r := Success(200, a);
    if Lowercased(before) {
      TypesAreLower();
      forall b | b in db.attributes ensures IsLower(b.name) && IsLower(b.valueType) {
        var j :| 0 <= j < |db.attributes| && db.attributes[j] == b;
        if j != i {
          assert b in before.attributes;
        }
      }
    }
  }

  /** `destroy`: 404 for an unknown id, otherwise delete the attribute and its values. */
  method Destroy(db: Database, id: string) returns (r: Response<()>)
    requires db.Valid()
    modifies db
    ensures db.Valid()
    ensures old(db.Normalised()) ==> db.Normalised()
    ensures !HasKey(old(db.attributes), AttributeKey, id) ==> r == NotFound && db.State() == old(db.State())
    ensures HasKey(old(db.attributes), AttributeKey, id) ==>
              r == Success(200, ()) && db.State() == DeleteAttributeCascade(old(db.State()), id)
  {
    var found := IndexOf(db.attributes, AttributeKey, id);
    if found.None? {
      return NotFound;
    }
    ghost var before := db.State();
    db.DeleteAttribute(id);
    if Lowercased(before) {
      LowercasedSubset(before, db.State());
    }
    r := Success(200, ());
  }

  // ---------------------------------------------------------------------------
  // Properties of the uniqueness rule
  // ---------------------------------------------------------------------------

  /** Resubmitting an attribute's own name on update passes the uniqueness rule, though `store` would refuse it. */
  lemma OwnNameAllowedOnUpdate(t: Tables, a: Attribute)
    requires a in t.attributes
    requires forall b :: b in t.attributes && b.name == a.name ==> b.id == a.id
    ensures !NameTaken(t.attributes, a.name, Some(a.id))
    ensures NameTaken(t.attributes, a.name, None)
  {
  }

  /**
   * With names stored lower-cased, any submitted name holding an upper-case letter passes
   * the uniqueness rule, so `store` accepts it even when its lower-cased form is already
   * stored, and the table then holds two attributes with the same name.
   */
  lemma CaseVariantPassesUniqueness(t: Tables, input: Input, newId: Uuid)
    requires Lowercased(t)
    requires RequiredString(input, "name", MaxString) && TypeAccepted(input, true)
    requires !IsLower(input["name"].s)
    ensures StoreErrors(t, input) == {}
    ensures (exists a :: a in t.attributes && a.name == Lower(input["name"].s)) ==>
              exists a :: a in t.attributes && a.name == NewAttribute(t, input, newId).name
  {
    forall a | a in t.attributes ensures a.name != input["name"].s {
      assert IsLower(a.name);
    }
  }

  /** A type outside the enum is rejected whatever the name. */
  lemma TypeOutsideDomainRejected(t: Tables, input: Input)
    requires "type" in input && input["type"].Str? && input["type"].s !in AttributeTypes
    ensures "type" in StoreErrors(t, input)
  {
  }
}
