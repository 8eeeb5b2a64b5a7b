/**
 * The project-listing filter of `ProjectController::index`. Each (key, value) pair of
 * the `filters` parameter is lower-cased and then feeds two independent branches:
 * a `LIKE '%value%'` test on the `name` or `status` column when the key names one,
 * and, when some attribute's lower-cased name equals the key, a test that the project
 * has a value row of that attribute whose lower-cased value is `LIKE '%value%'`.
 * All tests are ANDed; a key that neither branch recognises adds nothing.
 */
module ProjectFilter {
  import opened Wrappers
  import opened Text
  import opened Rows
  import opened Schema
  import opened ProjectModel
  import opened Database

  /** The `filters` parameter: (key, value) pairs in request order; an absent parameter is `[]`. */
  type Filters = seq<(string, string)>

  /** The columns a filter key may name directly. */
  const NativeColumns: set<string> := {"name", "status"}

  /** A listed project with its eager-loaded `attributeValues`. */
  datatype Listed = Listed(project: Project, values: seq<AttributeValue>)

  /** The native column `column` of project `p`. */
  function Column(p: Project, column: string): string
    requires column in NativeColumns
  {
    if column == "name" then p.name else p.status
  }

  /** The lookup key of an attribute: `LOWER(name)`. */
  function LoweredName(a: Attribute): string
  {
    Lower(a.name)
  }

  /** `Attribute::whereRaw('LOWER(name) = ?', [$key])->first()`: the first attribute so named. */
  function FindAttribute(attributes: seq<Attribute>, key: string): (r: Option<Attribute>)
    ensures r.None? <==> forall a :: a in attributes ==> Lower(a.name) != key
    ensures r.Some? ==> Lower(r.value.name) == key
    ensures r.Some? ==> exists i :: 0 <= i < |attributes| && attributes[i] == r.value &&
                          forall j :: 0 <= j < i ==> Lower(attributes[j].name) != key
  {
    match IndexOf(attributes, LoweredName, key)
    case None => None
    case Some(i) => Some(attributes[i])
  }

  /** Some value row of `attributeId` for project `projectId` has a lower-cased value matching `pattern`. */
  predicate HasValueMatching(values: seq<AttributeValue>, projectId: Uuid, attributeId: Uuid, pattern: string)
  {
    exists v :: v in values && v.entityId == projectId && v.attributeId == attributeId && Like(Lower(v.value), pattern)
  }

  /** One clause appended to the query builder. */
  datatype Clause =
    | ColumnLike(column: string, pattern: string)     // $query->where($key, 'LIKE', "%$value%")
    | HasValueLike(attributeId: Uuid, pattern: string) // $query->whereHas('attributeValues', ...)

  /** Project `p` satisfies clause `c` against the value rows `values`. */
  predicate Holds(c: Clause, p: Project, values: seq<AttributeValue>)
  {
    match c
    case ColumnLike(column, pattern) => column in NativeColumns && Like(Column(p, column), pattern)
    case HasValueLike(attributeId, pattern) => HasValueMatching(values, p.id, attributeId, pattern)
  }

  /** Project `p` satisfies every clause of `query`. */
  predicate HoldsAll(query: seq<Clause>, p: Project, values: seq<AttributeValue>)
  {
    forall i :: 0 <= i < |query| ==> Holds(query[i], p, values)
  }

  lemma HoldsAllAppend(query: seq<Clause>, c: Clause, p: Project, values: seq<AttributeValue>)
    ensures HoldsAll(query + [c], p, values) <==> HoldsAll(query, p, values) && Holds(c, p, values)
  {
    var q := query + [c];
    assert q[|query|] == c;
    assert forall i :: 0 <= i < |query| ==> q[i] == query[i];
  }

  /** The native branch of one filter: it constrains `p` only when the lowered key names a column. */
  predicate NativeKeeps(p: Project, key: string, value: string)
  {
    var k := Lower(key);
    k in NativeColumns ==> Like(Column(p, k), SubstringPattern(Lower(value)))
  }

  /** The attribute branch of one filter: it constrains `p` only when an attribute is named like the lowered key. */
  predicate AttributeKeeps(t: Tables, p: Project, key: string, value: string)
  {
    match FindAttribute(t.attributes, Lower(key))
    case None => true
    case Some(a) => HasValueMatching(t.values, p.id, a.id, SubstringPattern(Lower(value)))
  }

  /** Both branches of one filter pair. */
  predicate Keeps(t: Tables, p: Project, f: (string, string))
  {
    NativeKeeps(p, f.0, f.1) && AttributeKeeps(t, p, f.0, f.1)
  }

  /** Project `p` passes every filter pair. */
  predicate Matches(t: Tables, filters: Filters, p: Project)
  {
    forall i :: 0 <= i < |filters| ==> Keeps(t, p, filters[i])
  }

  /** The listing restricted to the projects `ps`, in their order, each with all of its values. */
  function ListFrom(t: Tables, filters: Filters, ps: seq<Project>): (r: seq<Listed>)
    ensures |r| <= |ps|
    ensures forall x :: x in r <==>
              x.project in ps && Matches(t, filters, x.project) && x.values == ValuesOf(t.values, x.project.id)
    decreases |ps|
  {
    if ps == [] then []
    else
      var p := ps[|ps| - 1];
      var init := ps[..|ps| - 1];
      assert ps == init + [p];
      ListFrom(t, filters, init) + (if Matches(t, filters, p) then [Listed(p, ValuesOf(t.values, p.id))] else [])
  }

  /** Extending the scanned prefix by one project appends that project's entry when it matches. */
  lemma ListFromStep(t: Tables, filters: Filters, ps: seq<Project>, i: nat)
    requires i < |ps|
    ensures ListFrom(t, filters, ps[..i + 1]) ==
            ListFrom(t, filters, ps[..i]) +
            (if Matches(t, filters, ps[i]) then [Listed(ps[i], ValuesOf(t.values, ps[i].id))] else [])
  {
    assert ps[..i + 1][..i] == ps[..i];
  }

  /** What `index` answers with: every project of the table that passes the filters. */
  function Listing(t: Tables, filters: Filters): seq<Listed>
  {
    ListFrom(t, filters, t.projects)
  }

  /** `p` passes the native branch of the first `n` pairs. */
  predicate NativePrefix(filters: Filters, n: nat, p: Project)
    requires n <= |filters|
  {
    forall j :: 0 <= j < n ==> NativeKeeps(p, filters[j].0, filters[j].1)
  }

  /** `p` passes the attribute branch of the first `n` pairs. */
  predicate AttributePrefix(t: Tables, filters: Filters, n: nat, p: Project)
    requires n <= |filters|
  {
    forall j :: 0 <= j < n ==> AttributeKeeps(t, p, filters[j].0, filters[j].1)
  }

  /** One turn of the first loop keeps the clauses equal to the native branch of the pairs seen. */
  lemma NativeStep(query: seq<Clause>, next: seq<Clause>, values: seq<AttributeValue>, filters: Filters, i: nat)
    requires i < |filters|
    requires forall p :: HoldsAll(query, p, values) <==> NativePrefix(filters, i, p)
    requires var key := Lower(filters[i].0);
             next == if key in NativeColumns then query + [ColumnLike(key, SubstringPattern(Lower(filters[i].1)))] else query
    ensures forall p :: HoldsAll(next, p, values) <==> NativePrefix(filters, i + 1, p)
  {
    var key := Lower(filters[i].0);
    forall p ensures HoldsAll(next, p, values) <==> NativePrefix(filters, i + 1, p) {
      assert NativePrefix(filters, i + 1, p) <==> NativePrefix(filters, i, p) && NativeKeeps(p, filters[i].0, filters[i].1);
      if key in NativeColumns {
        HoldsAllAppend(query, ColumnLike(key, SubstringPattern(Lower(filters[i].1))), p, values);
      }
    }
  }

  /** One turn of the second loop adds the attribute branch of one more pair. */
  lemma AttributeStep(query: seq<Clause>, next: seq<Clause>, t: Tables, filters: Filters, i: nat)
    requires i < |filters|
    requires forall p :: HoldsAll(query, p, t.values) <==>
               NativePrefix(filters, |filters|, p) && AttributePrefix(t, filters, i, p)
    requires var found := FindAttribute(t.attributes, Lower(filters[i].0));
             next == if found.Some? then query + [HasValueLike(found.value.id, SubstringPattern(Lower(filters[i].1)))] else query
    ensures forall p :: HoldsAll(next, p, t.values) <==>
              NativePrefix(filters, |filters|, p) && AttributePrefix(t, filters, i + 1, p)
  {
    var found := FindAttribute(t.attributes, Lower(filters[i].0));
    forall p ensures HoldsAll(next, p, t.values) <==> NativePrefix(filters, |filters|, p) && AttributePrefix(t, filters, i + 1, p) {
      assert AttributePrefix(t, filters, i + 1, p) <==>
             AttributePrefix(t, filters, i, p) && AttributeKeeps(t, p, filters[i].0, filters[i].1);
      if found.Some? {
        HoldsAllAppend(query, HasValueLike(found.value.id, SubstringPattern(Lower(filters[i].1))), p, t.values);
      }
    }
  }

  /**
   * The composer's two loops, as the source runs them: the first appends a column clause
   * for every key naming `name` or `status`, the second a `whereHas` clause for every key
   * naming an attribute. The clauses mean exactly `Matches`.
   */
  method ComposeQuery(db: Database, filters: Filters) returns (query: seq<Clause>)
    ensures forall p :: HoldsAll(query, p, db.values) <==> Matches(db.State(), filters, p)
  {
    ghost var t := db.State();
    query := [];
    var i := 0;
    while i < |filters|
      invariant 0 <= i <= |filters|
      invariant forall p :: HoldsAll(query, p, db.values) <==> NativePrefix(filters, i, p)
    {
      var key := Lower(filters[i].0);
      var value := Lower(filters[i].1);
      var next := if key in NativeColumns then query + [ColumnLike(key, SubstringPattern(value))] else query;
      NativeStep(query, next, db.values, filters, i);
      query := next;
      i := i + 1;
    }
    i := 0;
    while i < |filters|
      invariant 0 <= i <= |filters|
      invariant forall p :: HoldsAll(query, p, t.values) <==>
                  NativePrefix(filters, |filters|, p) && AttributePrefix(t, filters, i, p)
    {
      var key := Lower(filters[i].0);
      var value := Lower(filters[i].1);
      var attribute := FindAttribute(db.attributes, key);
      var next := if attribute.Some? then query + [HasValueLike(attribute.value.id, SubstringPattern(value))] else query;
      AttributeStep(query, next, t, filters, i);
      query := next;
      i := i + 1;
    }
    forall p ensures HoldsAll(query, p, t.values) <==> Matches(t, filters, p) {
      assert Matches(t, filters, p) <==> NativePrefix(filters, |filters|, p) && AttributePrefix(t, filters, |filters|, p);
    }
  }

  // ---------------------------------------------------------------------------
  // Laws of the listing
  // ---------------------------------------------------------------------------

  /** Without filters every project is listed, in table order, with all of its values. */
  lemma {:induction false} NoFiltersListsAll(t: Tables, ps: seq<Project>)
    ensures |ListFrom(t, [], ps)| == |ps|
    ensures forall i :: 0 <= i < |ps| ==> ListFrom(t, [], ps)[i] == Listed(ps[i], ValuesOf(t.values, ps[i].id))
    decreases |ps|
  {
    if ps != [] {
      NoFiltersListsAll(t, ps[..|ps| - 1]);
    }
  }

  /** Filter pairs are ANDed: matching a concatenation is matching both parts. */
  lemma MatchesAppend(t: Tables, f: Filters, g: Filters, p: Project)
    ensures Matches(t, f + g, p) <==> Matches(t, f, p) && Matches(t, g, p)
  {
    var fg := f + g;
    assert forall i :: 0 <= i < |f| ==> fg[i] == f[i];
    assert forall i :: 0 <= i < |g| ==> fg[|f| + i] == g[i];
    if Matches(t, f, p) && Matches(t, g, p) {
      forall i | 0 <= i < |fg| ensures Keeps(t, p, fg[i]) {
        if i >= |f| {
          assert fg[i] == g[i - |f|];
        }
      }
    }
  }

  /** The rows of `xs` whose project also passes `g`, in order. */
  function Refine(t: Tables, xs: seq<Listed>, g: Filters): (r: seq<Listed>)
    ensures |r| <= |xs|
    ensures forall x :: x in r <==> x in xs && Matches(t, g, x.project)
    decreases |xs|
  {
    if xs == [] then []
    else
      var x := xs[|xs| - 1];
      var init := xs[..|xs| - 1];
      assert xs == init + [x];
      Refine(t, init, g) + (if Matches(t, g, x.project) then [x] else [])
  }

  /** Adding filters `g` keeps exactly the rows of the earlier answer that also pass `g`, in the same order. */
  lemma {:induction false} AddingFiltersRefines(t: Tables, f: Filters, g: Filters, ps: seq<Project>)
    ensures ListFrom(t, f + g, ps) == Refine(t, ListFrom(t, f, ps), g)
    decreases |ps|
  {
    if ps != [] {
      var p := ps[|ps| - 1];
      var init := ps[..|ps| - 1];
      AddingFiltersRefines(t, f, g, init);
      MatchesAppend(t, f, g, p);
      var x := Listed(p, ValuesOf(t.values, p.id));
      var prev := ListFrom(t, f, init);
      if Matches(t, f, p) {
        assert ListFrom(t, f, ps) == prev + [x];
        assert (prev + [x])[..|prev + [x]| - 1] == prev;
      } else {
        assert ListFrom(t, f, ps) == prev;
      }
    }
  }

  /** Adding a filter never enlarges the answer. */
  lemma AddingFilterNarrows(t: Tables, f: Filters, g: Filters)
    ensures |Listing(t, f + g)| <= |Listing(t, f)|
    ensures forall x :: x in Listing(t, f + g) ==> x in Listing(t, f)
  {
    AddingFiltersRefines(t, f, g, t.projects);
  }

  /** Two filter lists that agree on every project give the same listing. */
  lemma {:induction false} SameVerdictSameListing(t: Tables, f: Filters, g: Filters, ps: seq<Project>)
    requires forall p :: p in ps ==> (Matches(t, f, p) <==> Matches(t, g, p))
    ensures ListFrom(t, f, ps) == ListFrom(t, g, ps)
    decreases |ps|
  {
    if ps != [] {
      var init := ps[..|ps| - 1];
      assert forall p :: p in init ==> p in ps;
      SameVerdictSameListing(t, f, g, init);
    }
  }

  /** The order of the filter pairs does not matter. */
  lemma FilterOrderIrrelevant(t: Tables, f: Filters, g: Filters)
    ensures Listing(t, f + g) == Listing(t, g + f)
  {
    forall p ensures Matches(t, f + g, p) <==> Matches(t, g + f, p) {
      MatchesAppend(t, f, g, p);
      MatchesAppend(t, g, f, p);
    }
    SameVerdictSameListing(t, f + g, g + f, t.projects);
  }

  /** A key naming neither a native column nor an attribute leaves the listing unchanged, wherever it stands. */
  lemma UnknownKeyIgnored(t: Tables, f: Filters, g: Filters, key: string, value: string)
    requires Lower(key) !in NativeColumns
    requires forall a :: a in t.attributes ==> Lower(a.name) != Lower(key)
    ensures Listing(t, f + [(key, value)] + g) == Listing(t, f + g)
  {
    forall p ensures Matches(t, f + [(key, value)] + g, p) <==> Matches(t, f + g, p) {
      MatchesAppend(t, f + [(key, value)], g, p);
      MatchesAppend(t, f, [(key, value)], p);
      MatchesAppend(t, f, g, p);
      assert Keeps(t, p, (key, value));
    }
    SameVerdictSameListing(t, f + [(key, value)] + g, f + g, t.projects);
  }

  /**
   * A key that names a native column and also an attribute adds both tests: the project
   * must match on the column and also hold a matching value of that attribute.
   */
  lemma BothBranchesApply(t: Tables, key: string, value: string, p: Project)
    requires Lower(key) in NativeColumns
    requires FindAttribute(t.attributes, Lower(key)).Some?
    ensures Matches(t, [(key, value)], p) <==>
              Like(Column(p, Lower(key)), SubstringPattern(Lower(value))) &&
              HasValueMatching(t.values, p.id, FindAttribute(t.attributes, Lower(key)).value.id, SubstringPattern(Lower(value)))
  {
    var f := [(key, value)];
    assert f[0] == (key, value);
    assert Matches(t, f, p) <==> Keeps(t, p, (key, value));
  }

  /** When no attribute is named `name` or `status`, native-only filters are plain column tests. */
  lemma NativeOnlyFilters(t: Tables, f: Filters, p: Project)
    requires forall i :: 0 <= i < |f| ==> Lower(f[i].0) in NativeColumns
    requires forall a :: a in t.attributes ==> Lower(a.name) !in NativeColumns
    ensures Matches(t, f, p) <==>
            forall i :: 0 <= i < |f| ==> Like(Column(p, Lower(f[i].0)), SubstringPattern(Lower(f[i].1)))
  {
    forall i | 0 <= i < |f| ensures AttributeKeeps(t, p, f[i].0, f[i].1) {
      assert FindAttribute(t.attributes, Lower(f[i].0)).None?;
    }
  }

  /**
   * On a lower-case column, the native branch is a case-insensitive substring test for
   * any value free of LIKE wildcards.
   */
  lemma NativeBranchIgnoresCase(p: Project, key: string, value: string)
    requires Lower(key) in NativeColumns && IsLower(Column(p, Lower(key)))
    requires NoWildcards(value)
    ensures NativeKeeps(p, key, value) <==> Contains(Lower(Column(p, Lower(key))), Lower(value))
  {
    LowerKeepsNoWildcards(value);
    LikeContains(Column(p, Lower(key)), Lower(value));
  }

  /** Every listed project carries all of its value rows, not only the ones a filter matched. */
  lemma ListedCarryAllValues(t: Tables, f: Filters, x: Listed, v: AttributeValue)
    requires x in Listing(t, f)
    ensures v in x.values <==> v in t.values && v.entityId == x.project.id
  {
  }

  /**
   * On lower-cased values, the attribute branch asks for a value row of the named
   * attribute on the project that contains the lower-cased filter value, for any value
   * free of LIKE wildcards.
   */
  lemma AttributeBranchIgnoresCase(t: Tables, p: Project, key: string, value: string)
    requires Lowercased(t) && NoWildcards(value)
    requires FindAttribute(t.attributes, Lower(key)).Some?
    ensures var a := FindAttribute(t.attributes, Lower(key)).value;
            AttributeKeeps(t, p, key, value) <==>
              exists v :: v in t.values && v.entityId == p.id && v.attributeId == a.id && Contains(v.value, Lower(value))
  {
    var a := FindAttribute(t.attributes, Lower(key)).value;
    var w := Lower(value);
    LowerKeepsNoWildcards(value);
    forall v | v in t.values
      ensures Like(Lower(v.value), SubstringPattern(w)) <==> Contains(v.value, w)
    {
      assert IsLower(v.value);
      LikeContains(v.value, w);
    }
  }
}
