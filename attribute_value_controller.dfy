/**
 * `AttributeValueController`: list, show, create, update and delete the values of
 * attributes on projects. Both references must exist; values are stored lower-cased;
 * nothing stops a project holding several values of one attribute. Unexpected failures
 * answer 500 with a fixed message.
 */
module AttributeValueController {
  import opened Wrappers
  import opened Text
  import opened Rows
  import opened Schema
  import opened Validation
  import opened Responses
  import opened Database

  /** `exists:attributes,id` on a present value. */
  predicate AttributeExists(t: Tables, v: Value)
  {
    v.Str? && v.s != "" && HasKey(t.attributes, AttributeKey, v.s)
  }

  /** `exists:projects,id` on a present value. */
  predicate ProjectExists(t: Tables, v: Value)
  {
    v.Str? && v.s != "" && HasKey(t.projects, ProjectKey, v.s)
  }

  /** The fields `store` rejects: both references `required|exists`, `value` `required|string|max:255`. */
  function StoreErrors(t: Tables, input: Input): (e: set<string>)
    ensures "attribute_id" in e <==> !("attribute_id" in input && AttributeExists(t, input["attribute_id"]))
    ensures "entity_id" in e <==> !("entity_id" in input && ProjectExists(t, input["entity_id"]))
    ensures "value" in e <==> !RequiredString(input, "value", MaxString)
    ensures e <= {"attribute_id", "entity_id", "value"}
  {
    (if "attribute_id" in input && AttributeExists(t, input["attribute_id"]) then {} else {"attribute_id"}) +
    (if "entity_id" in input && ProjectExists(t, input["entity_id"]) then {} else {"entity_id"}) +
    (if RequiredString(input, "value", MaxString) then {} else {"value"})
  }

  /** The fields `update` rejects: the same rules, each applied only to a field that is present. */
  function UpdateErrors(t: Tables, input: Input): (e: set<string>)
    ensures "attribute_id" in e <==> "attribute_id" in input && !AttributeExists(t, input["attribute_id"])
    ensures "entity_id" in e <==> "entity_id" in input && !ProjectExists(t, input["entity_id"])
    ensures "value" in e <==> !OptionalString(input, "value", MaxString)
    ensures e <= {"attribute_id", "entity_id", "value"}
  {
    (if "attribute_id" !in input || AttributeExists(t, input["attribute_id"]) then {} else {"attribute_id"}) +
    (if "entity_id" !in input || ProjectExists(t, input["entity_id"]) then {} else {"entity_id"}) +
    (if OptionalString(input, "value", MaxString) then {} else {"value"})
  }

  /** The row `store` creates under the generated key `newId`, with the value lower-cased. */
  function NewValue(t: Tables, input: Input, newId: Uuid): (v: AttributeValue)
    requires StoreErrors(t, input) == {}
    ensures v.id == newId
    ensures v.attributeId == input["attribute_id"].s && HasKey(t.attributes, AttributeKey, v.attributeId)
    ensures v.entityId == input["entity_id"].s && HasKey(t.projects, ProjectKey, v.entityId)
    ensures v.value == Lower(input["value"].s) && IsLower(v.value)
  {
    AttributeValue(newId, input["attribute_id"].s, input["entity_id"].s, Lower(input["value"].s))
  }

  /** The row as `update` leaves it: only the supplied fields change, a supplied value lower-cased. */
  function UpdatedValue(v: AttributeValue, t: Tables, input: Input): (r: AttributeValue)
    requires UpdateErrors(t, input) == {}
    ensures r.id == v.id
    ensures r.attributeId == if "attribute_id" in input then input["attribute_id"].s else v.attributeId
    ensures r.entityId == if "entity_id" in input then input["entity_id"].s else v.entityId
    ensures r.value == if "value" in input then Lower(input["value"].s) else v.value
  {
    v.(attributeId := if "attribute_id" in input then input["attribute_id"].s else v.attributeId,
       entityId := if "entity_id" in input then input["entity_id"].s else v.entityId,
       value := if "value" in input then Lower(input["value"].s) else v.value)
  }

  /**
   * `index`: every value row. The contract is deliberately order-free: `all()` issues no
   * `ORDER BY`, so SQL promises the rows and their number but no order.
   */
  function Index(t: Tables): (r: Response<seq<AttributeValue>>)
    ensures r.Success? && r.status == 200 && |r.data| == |t.values|
    ensures forall v :: v in r.data <==> v in t.values
  {
    Success(200, t.values)
  }

  /** `show`: the value row with key `id`, or 404. */
  function Show(t: Tables, id: string): (r: Response<AttributeValue>)
    ensures r.NotFound? <==> !HasKey(t.values, ValueKey, id)
    ensures r.Success? ==> r.status == 200 && r.data in t.values && r.data.id == id
    ensures r.Success? || r.NotFound?
  {
    match IndexOf(t.values, ValueKey, id)
    case None => NotFound
    case Some(i) => Success(200, t.values[i])
  }

  /** `store`: validate, lower-case the value, insert; `newId` is the key the `creating` hook generates. */
  method Store(db: Database, input: Input, newId: Uuid) returns (r: Response<AttributeValue>)
    requires db.Valid()
    modifies db
    ensures db.Valid()
    ensures old(db.Normalised()) ==> db.Normalised()
    ensures StoreErrors(old(db.State()), input) != {} ==>
              r == Invalid(422, StoreErrors(old(db.State()), input)) && db.State() == old(db.State())
    ensures StoreErrors(old(db.State()), input) == {} && HasKey(old(db.values), ValueKey, newId) ==>
              r == ServerError(UnexpectedError) && db.State() == old(db.State())
    ensures StoreErrors(old(db.State()), input) == {} && !HasKey(old(db.values), ValueKey, newId) ==>
              var v := NewValue(old(db.State()), input, newId);
              r == Success(201, v) && db.State() == old(db.State()).(values := old(db.values) + [v])
  {
    var errors := StoreErrors(db.State(), input);
    if errors != {} {
      return Invalid(422, errors);
    }
    var v := NewValue(db.State(), input, newId);
    var err := db.InsertValue(v);
    if err.Some? {
      return ServerError(UnexpectedError);
    }
    r := Success(201, v);
  }

  /** `update`: validate first, then find the row, then write the supplied fields. */
  method Update(db: Database, input: Input, id: string) returns (r: Response<AttributeValue>)
    requires db.Valid()
    modifies db
    ensures db.Valid()
    ensures old(db.Normalised()) ==> db.Normalised()
    ensures UpdateErrors(old(db.State()), input) != {} ==>
              r == Invalid(422, UpdateErrors(old(db.State()), input)) && db.State() == old(db.State())
    ensures UpdateErrors(old(db.State()), input) == {} && !HasKey(old(db.values), ValueKey, id) ==>
              r == NotFound && db.State() == old(db.State())
    ensures UpdateErrors(old(db.State()), input) == {} && HasKey(old(db.values), ValueKey, id) ==>
              var i := IndexOf(old(db.values), ValueKey, id).value;
              var v := UpdatedValue(old(db.values)[i], old(db.State()), input);
              r == Success(200, v) && db.State() == old(db.State()).(values := old(db.values)[i := v])
  {
    var errors := UpdateErrors(db.State(), input);
    if errors != {} {
      return Invalid(422, errors);
    }
    var found := IndexOf(db.values, ValueKey, id);
    if found.None? {
      return NotFound;
    }
    var i := found.value;
    ghost var before := db.State();
    var current := db.values[i];
    assert current in before.values;
    var v := UpdatedValue(current, db.State(), input);
    var err := db.UpdateValue(i, v);
    assert err.None?;
    r := Success(200, v);
    if Lowercased(before) {
      forall w | w in db.values ensures IsLower(w.value) {
        var j :| 0 <= j < |db.values| && db.values[j] == w;
        if j != i {
          assert w in before.values;
        }
      }
    }
  }

  /** `destroy`: 404 for an unknown id, otherwise delete the row. */
  method Destroy(db: Database, id: string) returns (r: Response<()>)
    requires db.Valid()
    modifies db
    ensures db.Valid()
    ensures old(db.Normalised()) ==> db.Normalised()
    ensures !HasKey(old(db.values), ValueKey, id) ==> r == NotFound && db.State() == old(db.State())
    ensures HasKey(old(db.values), ValueKey, id) ==>
              r == Success(200, ()) && db.State() == DeleteValue(old(db.State()), id)
  {
    var found := IndexOf(db.values, ValueKey, id);
    if found.None? {
      return NotFound;
    }
    ghost var before := db.State();
    db.DeleteValueRow(id);
    if Lowercased(before) {
      LowercasedSubset(before, db.State());
    }
    r := Success(200, ());
  }

  // ---------------------------------------------------------------------------
  // Properties
  // ---------------------------------------------------------------------------

  /** `store` looks at attributes and projects only: the existing values, duplicates included, never matter. */
  lemma StoreIgnoresExistingValues(t: Tables, others: seq<AttributeValue>, input: Input)
    ensures StoreErrors(t.(values := others), input) == StoreErrors(t, input)
  {
  }

  /** A second value for the same attribute and project is accepted, and the project then lists both. */
  lemma SecondValueForSamePair(t: Tables, input: Input, first: AttributeValue, newId: Uuid)
    requires StoreErrors(t, input) == {} && first in t.values
    requires first.attributeId == input["attribute_id"].s && first.entityId == input["entity_id"].s
    ensures var v := NewValue(t, input, newId);
            var t' := t.(values := t.values + [v]);
            StoreErrors(t', input) == {} &&
            first in t'.values && v in t'.values &&
            v.attributeId == first.attributeId && v.entityId == first.entityId
  {
    StoreIgnoresExistingValues(t, t.values + [NewValue(t, input, newId)], input);
  }
}
