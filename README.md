# Agile-Tracker core in Dafny

This is a Dafny model of the JSON API of Agile-Tracker, a Laravel project and timesheet
tracker. Projects carry custom typed attributes in the Entity-Attribute-Value style: an
`attributes` table names them, and an `attribute_values` table holds one row per
(attribute, project, value). The model covers:

- the five tables the core migrations create (projects, timesheets, project_user,
  attributes, attribute_values) plus the users table, held as sequences in insertion
  order. Primary keys, foreign keys, the `status` and `type` enums and the `ON DELETE
  CASCADE` rules are the invariant `Schema.Consistent`. The class `Database.Database`
  holds the tables as fields. Its insert, update and delete operations keep that
  invariant and answer with the driver's error message when a constraint would break;
- the five controllers (projects, attributes, attribute values, timesheets, auth), one
  module each. Validation rules are pure functions that return the set of rejected fields.
  The rows an action writes are pure functions (`NewProject`, `UpdatedAttribute`, ...).
  Read actions are pure functions over the tables. Write actions are methods on the
  `Database`, and their contracts state both the response and the new tables;
- the project listing filter. `ProjectFilter.ComposeQuery` is a loop that builds the query
  clause by clause. `ProjectController.Index` is a loop that scans the projects. Both are
  proved against the specification `ProjectFilter.Matches` / `ProjectFilter.Listing`, and
  the filter laws are lemmas about that specification: conjunction, narrowing, order
  independence, unknown keys ignored, both branches applied;
- the `Project` model's creating hook, mass-assignment guard and `status` default;
- the two exception renderers (the global middleware and the exception handler) and the
  `Bearer` access-token gate. These are pure functions over a request, a thrown value and
  the downstream outcome.

Some behaviour is passed in as parameters because the source does not own it: the fresh
UUID a `creating` hook generates (`newId`), the authenticated caller (`caller`), the
`date` and `email` validation rules (`isDate`, `isEmail`), the password hasher (`Hasher`, with
`check(p, make(p))` as the assumption `AuthController.Sound`) and the issued access token
(`token`).

Text is `seq<char>`. PHP's `strtolower` is `Text.Lower` (ASCII only). SQL `LIKE` is
`Text.Like`: `%` matches any run, `_` matches any single character, there is no escape
character, and comparison is case-sensitive. `Database.Normalised` says that every stored
name, status, type, value and user field is lower case. Every write action preserves it,
so on normalised tables the listing filter is a case-insensitive substring test
(`ProjectFilter.NativeBranchIgnoresCase`, `ProjectFilter.AttributeBranchIgnoresCase`).

Three behaviours of the code are worth stating outright:

- The attribute uniqueness rule compares the name as submitted with the stored lower-case
  names, so after "Priority" has been stored as "priority", a second "Priority" passes
  validation and creates a second attribute with the same stored name
  (`AttributeController.CaseVariantPassesUniqueness`). A case-insensitive database
  collation would reject it; collations are not modelled.
- The native filter lowers the key and the value but not the column
  (app/Http/Controllers/ProjectController.php:39). The model proves the filter
  case-insensitive only on normalised tables.
- `TimesheetController::store` lower-cases `task_name` only after the row is created, so
  the row and the response keep the submitted case. `update` lower-cases it
  (`TimesheetController.StoreKeepsCaseUpdateLowers`).

## Model

| member | source | states |
|---|---|---|
| Text.Lower | app/Http/Controllers/ProjectController.php:36-37 | `strtolower`: same length, maps each character by ASCII lower-casing, the result is lower case, and lower-case text is unchanged |
| Text.LowerIdempotent | app/Http/Controllers/ProjectController.php:47-48 | lower-casing twice equals lower-casing once |
| Text.LowerAppend | app/Http/Controllers/ProjectController.php:39 | lower-casing distributes over concatenation, so the `%value%` pattern of a lowered value is the lowered pattern |
| Text.ContainsAt | app/Http/Controllers/ProjectController.php:39 | substring containment holds exactly when the needle occurs at some position |
| Text.ContainsLower | app/Http/Controllers/ProjectController.php:54 | a substring stays a substring after both sides are lower-cased |
| Text.Drop | app/Http/middleware/AuthenticateAccessToken.php:28 | `substr(s, n)`: for n within the string the prefix of length n followed by the result is s; beyond it, empty |
| Text.SubstringPattern | app/Http/Controllers/ProjectController.php:39 | `"%$value%"` is the value wrapped in one `%` on each side |
| Text.LikePercent | app/Http/Controllers/ProjectController.php:39 | the pattern `%` matches every string |
| Text.LikeLiteralPrefix | app/Http/Controllers/ProjectController.php:39 | a string that starts with literal v and whose rest matches q matches v followed by q |
| Text.LikePrefixLiteral | app/Http/Controllers/ProjectController.php:39 | a string matching wildcard-free v followed by `%` starts with v |
| Text.ContainsLike | app/Http/Controllers/ProjectController.php:39 | a string containing v matches `%v%` |
| Text.LowerKeepsNoWildcards | app/Http/Controllers/ProjectController.php:37 | lower-casing a wildcard-free value introduces no `%` or `_` |
| Text.LikeContains | app/Http/Controllers/ProjectController.php:39 | for a wildcard-free v, matching `%v%` is exactly containing v (both directions) |
| Text.EmptyValueMatchesAll | app/Http/Controllers/ProjectController.php:39 | an empty filter value matches every column |
| Text.UnderscoreIsWildcard | app/Http/Controllers/ProjectController.php:39 | an `_` in a filter value matches any character, so `%a_c%` matches text not containing `a_c` |
| Validation.NumberOf | app/Http/Controllers/TimesheetController.php:88 | the whole number an accepted `numeric` value of at least 0 denotes: the JSON number itself, or the value of its decimal digits |
| Validation.Decimal | app/Http/Controllers/TimesheetController.php:88 | the decimal rendering of a number is a non-empty run of digits |
| Validation.DecimalRoundTrip | app/Http/Controllers/TimesheetController.php:88 | reading back the decimal rendering of a number gives the number |
| Validation.LeadingZeroIgnored | app/Http/Controllers/TimesheetController.php:88 | a leading zero does not change the number a digit string denotes |
| Rows.IndexOf | app/Http/Controllers/ProjectController.php:76 | `findOrFail`/`first()`: the first row with the key, or none exactly when no row has it |
| Rows.Where | app/Http/Controllers/ProjectController.php:60 | a `where` filter keeps exactly the rows satisfying the condition: every copy of a kept row stays and every copy of another row goes (equal multiplicities), and the survivors keep their order as a subsequence of the table |
| Rows.WhereEmpty | app/Models/Project.php:42-45 | a filter is empty exactly when no row satisfies the condition |
| Rows.UniqueTail | database/migrations/2025_02_28_175041_create_projects_table.php:12 | the rows after the first of a uniquely keyed table are uniquely keyed and none shares the first one's key |
| Rows.UniqueCons | database/migrations/2025_02_28_175041_create_projects_table.php:12 | a row put in front of uniquely keyed rows that do not share its key keeps keys unique |
| Rows.WhereKeepsUnique | database/migrations/2025_02_28_175041_create_projects_table.php:12 | deleting rows keeps primary keys unique |
| Rows.AppendKeepsUnique | database/migrations/2025_02_28_175041_create_projects_table.php:12 | appending a row with a fresh key keeps primary keys unique |
| Rows.ReplaceKeepsKeys | database/migrations/2025_02_28_175041_create_projects_table.php:12 | rewriting a row in place under the same key keeps keys unique and the set of keys unchanged |
| Rows.HasKeyAfterWhere | database/migrations/2025_02_28_175307_create_attribute_values_table.php:19-20 | a key whose rows all survive a delete is still present, so references into the survivors resolve |
| Schema.EmptyConsistent | database/migrations/2025_02_28_175041_create_projects_table.php:11-15 | the empty database satisfies every key, enum and reference constraint |
| Schema.DeleteProjectCascade | database/migrations/2025_02_28_175307_create_attribute_values_table.php:20 | deleting a project removes it and exactly the values, timesheets and memberships that reference it; users and attributes are untouched |
| Schema.ProjectCascadeConsistent | database/migrations/2025_02_28_175056_create_timesheets_table.php:22 | the project cascade keeps the database consistent |
| Schema.DeleteAttributeCascade | database/migrations/2025_02_28_175307_create_attribute_values_table.php:19 | deleting an attribute removes it and exactly its values; every other table is untouched |
| Schema.AttributeCascadeConsistent | database/migrations/2025_02_28_175307_create_attribute_values_table.php:19 | the attribute cascade keeps the database consistent |
| Schema.DeleteUserCascade | database/migrations/2025_02_28_175056_create_timesheets_table.php:21 | deleting a user removes it and exactly its timesheets and memberships; projects, attributes and values are untouched |
| Schema.UserCascadeConsistent | database/migrations/2025_02_28_175120_create_project_user_table.php:18 | the user cascade keeps the database consistent |
| Schema.DeleteValue | app/Http/Controllers/AttributeValueController.php:169 | deleting a value row removes exactly that row and changes no other table |
| Schema.DeleteValueConsistent | app/Http/Controllers/AttributeValueController.php:169 | deleting a value row keeps the database consistent |
| Schema.DeleteTimesheet | app/Http/Controllers/TimesheetController.php:191 | deleting a timesheet removes exactly that row and changes no other table |
| Schema.DeleteTimesheetConsistent | app/Http/Controllers/TimesheetController.php:191 | deleting a timesheet keeps the database consistent |
| Schema.AttributeNamesMayRepeat | database/migrations/2025_02_28_175218_create_attributes_table.php:13 | the schema allows two attributes with the same name: name uniqueness is not a table constraint |
| Schema.MembershipPairsMayRepeat | database/migrations/2025_02_28_175120_create_project_user_table.php:13-14 | the schema allows the same (user, project) membership twice |
| ProjectModel.CreatingKey | app/Models/Project.php:18-22 | the creating hook keeps a non-empty supplied id and otherwise uses the generated UUID |
| ProjectModel.Fill | app/Models/Project.php:25 | mass assignment writes `name` and `status` when supplied and nothing else; the id never changes |
| ProjectModel.FillIgnoresGuarded | app/Models/Project.php:25 | a payload key outside `name`/`status` (such as a merged `id`) has no effect |
| ProjectModel.Create | app/Models/Project.php:18-29 | `Project::create` succeeds exactly when a name is supplied; the new row has the generated id, the given name, and the given status or `pending` |
| ProjectModel.ValuesOf | app/Models/Project.php:42-45 | a project's values are exactly the rows whose `entity_id` is its id, and there are none exactly when no row references it |
| Database.LowercasedSubset | app/Http/Controllers/ProjectController.php:221 | removing rows keeps every stored field lower case |
| Database.Database.constructor | database/migrations/2025_02_28_175041_create_projects_table.php:11-15 | a fresh database is empty, consistent and normalised |
| Database.Database.InsertUser | app/Models/User.php:20-29 | inserting a user fails with a duplicate-key error exactly when its id exists, and otherwise appends it and keeps the invariant |
| Database.Database.InsertProject | database/migrations/2025_02_28_175041_create_projects_table.php:12-14 | inserting a project fails with the driver's error for a duplicate id or a status outside the enum, and otherwise appends it and keeps the invariant |
| Database.Database.InsertAttribute | database/migrations/2025_02_28_175218_create_attributes_table.php:12-14 | inserting an attribute fails for a duplicate id or a type outside the enum, and otherwise appends it; a repeated name is allowed |
| Database.Database.InsertValue | database/migrations/2025_02_28_175307_create_attribute_values_table.php:12-20 | inserting a value row fails for a duplicate id or a dangling attribute or project reference, and otherwise appends it |
| Database.Database.InsertTimesheet | database/migrations/2025_02_28_175056_create_timesheets_table.php:12-22 | inserting a timesheet fails for a duplicate id or a dangling user or project reference, and otherwise appends it |
| Database.Database.InsertMember | database/migrations/2025_02_28_175120_create_project_user_table.php:13-19 | inserting a membership fails for a dangling user or project reference, and otherwise appends it |
| Database.Database.UpdateProject | database/migrations/2025_02_28_175041_create_projects_table.php:14 | rewriting a project succeeds exactly when its status is in the enum; only that row changes |
| Database.Database.UpdateAttribute | database/migrations/2025_02_28_175218_create_attributes_table.php:14 | rewriting an attribute succeeds exactly when its type is in the enum; only that row changes |
| Database.Database.UpdateValue | database/migrations/2025_02_28_175307_create_attribute_values_table.php:19-20 | rewriting a value row fails for a dangling reference; otherwise only that row changes |
| Database.Database.UpdateTimesheet | database/migrations/2025_02_28_175056_create_timesheets_table.php:21-22 | rewriting a timesheet fails for a dangling reference; otherwise only that row changes |
| Database.Database.Assign | database/migrations/2025_02_28_175041_create_projects_table.php:11-15 | any consistent set of tables can be loaded, and it is then the state |
| Database.Database.DeleteProject | database/migrations/2025_02_28_175307_create_attribute_values_table.php:20 | deleting a project leaves exactly the project cascade of the old state |
| Database.Database.DeleteAttribute | database/migrations/2025_02_28_175307_create_attribute_values_table.php:19 | deleting an attribute leaves exactly the attribute cascade of the old state |
| Database.Database.DeleteUser | database/migrations/2025_02_28_175056_create_timesheets_table.php:21 | deleting a user leaves exactly the user cascade of the old state |
| Database.Database.DeleteValueRow | app/Http/Controllers/AttributeValueController.php:169 | deleting a value row leaves exactly the old state without that row |
| Database.Database.DeleteTimesheetRow | app/Http/Controllers/TimesheetController.php:191 | deleting a timesheet leaves exactly the old state without that row |
| ProjectFilter.FindAttribute | app/Http/Controllers/ProjectController.php:49 | `whereRaw('LOWER(name) = ?')->first()`: none exactly when no attribute's lowered name is the key; otherwise the first such attribute |
| ProjectFilter.HoldsAllAppend | app/Http/Controllers/ProjectController.php:39 | adding a clause to a query conjoins it with the clauses already there |
| ProjectFilter.ListFrom | app/Http/Controllers/ProjectController.php:60 | the listed entries are exactly the matching projects, each with all of its values, in table order |
| ProjectFilter.ListFromStep | app/Http/Controllers/ProjectController.php:60 | scanning one more project appends its entry exactly when it matches the filters, so the listing follows table order |
| ProjectFilter.NativeStep | app/Http/Controllers/ProjectController.php:34-41 | one pass of the native loop extends the query so it holds exactly for projects passing one more native filter |
| ProjectFilter.AttributeStep | app/Http/Controllers/ProjectController.php:45-57 | one pass of the attribute loop extends the query so it holds exactly for projects passing one more attribute filter |
| ProjectFilter.ComposeQuery | app/Http/Controllers/ProjectController.php:33-58 | the composed query holds for a project exactly when the project matches every filter under both branches |
| ProjectFilter.NoFiltersListsAll | app/Http/Controllers/ProjectController.php:26-34 | with no filters every project is listed, in order, with its values; listings are not scoped to the caller |
| ProjectFilter.MatchesAppend | app/Http/Controllers/ProjectController.php:38-56 | matching concatenated filters is matching each part |
| ProjectFilter.Refine | app/Http/Controllers/ProjectController.php:38-56 | refining a listing keeps exactly its entries whose project matches the extra filters |
| ProjectFilter.AddingFiltersRefines | app/Http/Controllers/ProjectController.php:38-56 | listing with f then g is listing with f, refined by g |
| ProjectFilter.AddingFilterNarrows | app/Http/Controllers/ProjectController.php:38-56 | adding filters never enlarges the listing, in size or in entries |
| ProjectFilter.SameVerdictSameListing | app/Http/Controllers/ProjectController.php:60 | filter sets that agree on every project produce identical listings |
| ProjectFilter.FilterOrderIrrelevant | app/Http/Controllers/ProjectController.php:34-57 | the order of the filters does not change the listing |
| ProjectFilter.UnknownKeyIgnored | app/Http/Controllers/ProjectController.php:38-51 | a key naming neither a native column nor an attribute leaves the listing unchanged |
| ProjectFilter.BothBranchesApply | app/Http/Controllers/ProjectController.php:38-56 | a key that is both a column and an attribute name requires both the column match and an attribute-value match |
| ProjectFilter.NativeOnlyFilters | app/Http/Controllers/ProjectController.php:36-39 | when only native keys are used, a project matches exactly when each named column matches `%value%` |
| ProjectFilter.NativeBranchIgnoresCase | app/Http/Controllers/ProjectController.php:36-39 | on a lower-case column and a wildcard-free value, the native filter is a case-insensitive substring test |
| ProjectFilter.AttributeBranchIgnoresCase | app/Http/Controllers/ProjectController.php:46-56 | on normalised tables and a wildcard-free value, the attribute filter asks for a value row of that attribute on the project containing the lowered value |
| ProjectFilter.ListedCarryAllValues | app/Http/Controllers/ProjectController.php:60 | every listed project carries all of its values, not only the matching ones |
| ProjectController.StatusesAreLower | app/Http/Controllers/ProjectController.php:115-117 | every allowed status is already lower case, so lower-casing a validated status changes nothing |
| ProjectController.StoreErrors | app/Http/Controllers/ProjectController.php:105-110 | `name` is rejected exactly when missing, not a string or over 255; `status` exactly when present and outside the enum |
| ProjectController.UpdateErrors | app/Http/Controllers/ProjectController.php:159-168 | the merged `id` is rejected exactly when not a UUID; `name` and `status` only when present and invalid |
| ProjectController.Normalise | app/Http/Controllers/ProjectController.php:114-117 | the validated data holds the lowered `name` and the `status` exactly when they were sent |
| ProjectController.NewProject | app/Http/Controllers/ProjectController.php:114-123 | the created project has the generated id, the lowered name, and the sent status or `pending` |
| ProjectController.UpdatedProject | app/Http/Controllers/ProjectController.php:173-184 | update keeps the id, lowers a supplied name, sets a supplied status and leaves omitted fields as they were |
| ProjectController.Show | app/Http/Controllers/ProjectController.php:72-93 | 404 exactly for an unknown id; otherwise 200 with that project and exactly its values |
| ProjectController.Index | app/Http/Controllers/ProjectController.php:21-64 | the listing action answers 200 with exactly `Listing` of the filters |
| ProjectController.Store | app/Http/Controllers/ProjectController.php:101-146 | 422 with the rejected fields and no write; otherwise the project is inserted, then the caller's membership; a failing second insert keeps the project and answers 500 with the driver's message; success is 201 |
| ProjectController.Update | app/Http/Controllers/ProjectController.php:155-206 | 422 before lookup; 404 for an unknown id; otherwise only that project changes, to `UpdatedProject` |
| ProjectController.Destroy | app/Http/Controllers/ProjectController.php:214-237 | 404 for an unknown id; otherwise 200 and the state is the project cascade |
| ProjectController.ShowAfterInsert | app/Http/Controllers/ProjectController.php:72-81 | a freshly inserted project is shown with no values |
| ProjectController.ShowAfterDestroy | app/Http/Controllers/ProjectController.php:221 | after a delete the project is not found |
| ProjectController.ShowAfterUpdate | app/Http/Controllers/ProjectController.php:184 | after an update the project is shown with the new fields and its old values |
| ProjectController.StoreDefaultsToPending | app/Models/Project.php:25-29 | a store without `status` creates a pending project, and a payload `id` makes no difference |
| AttributeController.TypesAreLower | app/Http/Controllers/AttributeController.php:82 | every allowed type is already lower case |
| AttributeController.StoreErrors | app/Http/Controllers/AttributeController.php:75-78 | `name` is rejected exactly when missing, invalid or equal to a stored name; `type` exactly when missing or outside the enum |
| AttributeController.UpdateErrors | app/Http/Controllers/AttributeController.php:115-118 | present fields only; the uniqueness check ignores the attribute being updated |
| AttributeController.NewAttribute | app/Http/Controllers/AttributeController.php:81-85 | the created attribute has the generated id, the lowered name and the validated type |
| AttributeController.UpdatedAttribute | app/Http/Controllers/AttributeController.php:124-133 | update keeps the id, lowers a supplied name, sets a supplied type, leaves the rest |
| AttributeController.Index | app/Http/Controllers/AttributeController.php:18-27 | 200 with every attribute |
| AttributeController.Show | app/Http/Controllers/AttributeController.php:42-56 | 404 exactly for an unknown id; otherwise 200 with that attribute |
| AttributeController.Store | app/Http/Controllers/AttributeController.php:71-102 | 422 and no write for rejected fields; 201 with the appended attribute; a driver failure answers 500 with the fixed message |
| AttributeController.Update | app/Http/Controllers/AttributeController.php:111-155 | 422 before lookup, then 404, then only that attribute changes |
| AttributeController.Destroy | app/Http/Controllers/AttributeController.php:163-186 | 404 for an unknown id; otherwise the attribute and its values are deleted |
| AttributeController.OwnNameAllowedOnUpdate | app/Http/Controllers/AttributeController.php:116 | an attribute's own name passes the update uniqueness rule but fails the store rule |
| AttributeController.CaseVariantPassesUniqueness | app/Http/Controllers/AttributeController.php:76-82 | a name differing from a stored one only in case passes validation and creates a second attribute with the same stored name |
| AttributeController.TypeOutsideDomainRejected | app/Http/Controllers/AttributeController.php:77 | a type outside the enum is always rejected |
| AttributeValueController.StoreErrors | app/Http/Controllers/AttributeValueController.php:75-79 | each of `attribute_id`, `entity_id` and `value` is rejected exactly when missing or failing its existence or string rule |
| AttributeValueController.UpdateErrors | app/Http/Controllers/AttributeValueController.php:116-120 | the same rules, applied only to present fields |
| AttributeValueController.NewValue | app/Http/Controllers/AttributeValueController.php:82-85 | the created row has the generated id, existing references and the lowered value |
| AttributeValueController.UpdatedValue | app/Http/Controllers/AttributeValueController.php:126-132 | update keeps the id, sets supplied references, lowers a supplied value, leaves the rest |
| AttributeValueController.Index | app/Http/Controllers/AttributeValueController.php:18-27 | 200 with every value row |
| AttributeValueController.Show | app/Http/Controllers/AttributeValueController.php:42-56 | 404 exactly for an unknown id; otherwise 200 with that row |
| AttributeValueController.Store | app/Http/Controllers/AttributeValueController.php:71-103 | 422 and no write for rejected fields; otherwise 201 with the appended row |
| AttributeValueController.Update | app/Http/Controllers/AttributeValueController.php:112-154 | 422 before lookup, then 404, then only that row changes |
| AttributeValueController.Destroy | app/Http/Controllers/AttributeValueController.php:162-185 | 404 for an unknown id; otherwise only that row is deleted |
| AttributeValueController.StoreIgnoresExistingValues | app/Http/Controllers/AttributeValueController.php:75-79 | validation never looks at existing value rows |
| AttributeValueController.SecondValueForSamePair | app/Http/Controllers/AttributeValueController.php:75-85 | a second value for the same attribute and project is accepted, and both rows remain |
| TimesheetController.StoreErrors | app/Http/Controllers/TimesheetController.php:85-91 | each field is rejected exactly when missing or failing its rule (string up to 255, date, number at least 0, existing user, existing project) |
| TimesheetController.UpdateErrors | app/Http/Controllers/TimesheetController.php:127-137 | the merged `id` must be a UUID; every other rule applies only to a present field |
| TimesheetController.DestroyErrors | app/Http/Controllers/TimesheetController.php:182-185 | no error exactly when the id is a UUID naming an existing timesheet |
| TimesheetController.NewTimesheet | app/Http/Controllers/TimesheetController.php:94-97 | the created row holds the submitted fields, the task name in its submitted case |
| TimesheetController.UpdatedTimesheet | app/Http/Controllers/TimesheetController.php:143-148 | update keeps the id, lowers a supplied task name, sets the other supplied fields, leaves the rest |
| TimesheetController.SummaryOf | app/Http/Controllers/TimesheetController.php:25-27 | the user relation exposes only id, first name and email, and is absent exactly when the user is missing |
| TimesheetController.ProjectOf | app/Http/Controllers/TimesheetController.php:24 | the project relation is the project with that key, absent exactly when it is missing |
| TimesheetController.ViewOf | app/Http/Controllers/TimesheetController.php:23-28 | a timesheet with its user summary and project attached |
| TimesheetController.Index | app/Http/Controllers/TimesheetController.php:19-40 | 200 with every timesheet, in order, each with its relations |
| TimesheetController.Show | app/Http/Controllers/TimesheetController.php:48-73 | 404 exactly for an unknown id; otherwise 200 with that timesheet and its relations |
| TimesheetController.Store | app/Http/Controllers/TimesheetController.php:81-115 | 422 and no write for rejected fields; otherwise 201 with the appended row; a driver failure answers 500 with the fixed message |
| TimesheetController.Update | app/Http/Controllers/TimesheetController.php:123-170 | 422 before lookup, then 404, then only that row changes |
| TimesheetController.Destroy | app/Http/Controllers/TimesheetController.php:178-212 | never 404: an unknown or malformed id is 422 on `id`; otherwise the row is deleted |
| TimesheetController.ViewsComplete | app/Http/Controllers/TimesheetController.php:23-28 | in a consistent database every listed timesheet has its user and its project |
| TimesheetController.SummaryOfUser | app/Http/Controllers/TimesheetController.php:25-27 | a user's summary is exactly its id, first name and email |
| TimesheetController.StoreKeepsCaseUpdateLowers | app/Http/Controllers/TimesheetController.php:94-148 | store keeps the submitted task name while update with the same payload writes it lower-cased |
| TimesheetController.HoursAsDigitsOrNumber | app/Http/Controllers/TimesheetController.php:88 | `hours` sent as a decimal string is accepted and stored exactly as the same number sent as JSON |
| AuthController.RegisterErrors | app/Http/Controllers/AuthController.php:23-28 | each field is rejected exactly when it fails its rule: names required up to 255, a valid email unique as submitted, an untrimmed password of at least 8 that is not all blanks, with matching confirmation |
| AuthController.NewUser | app/Http/Controllers/AuthController.php:31-41 | the created user has lower-cased names and email and the hash of the password, never the plaintext under a non-identity hasher |
| AuthController.Register | app/Http/Controllers/AuthController.php:19-62 | 400 and no write for rejected fields; otherwise the user is appended and the answer is 201 with the token |
| AuthController.LoginErrors | app/Http/Controllers/AuthController.php:74-77 | `email` must be a non-empty valid email, `password` an untrimmed string with a character outside PHP's trim set |
| AuthController.BlankPasswordRejected | app/Http/Controllers/AuthController.php:27 | a password made only of blanks, of any length, is rejected by both `register` and `login` |
| AuthController.Login | app/Http/Controllers/AuthController.php:70-119 | 400 for rejected fields; 404 exactly when no user has the lowered email; otherwise 200 with the token if the hash checks, else 401 |
| AuthController.RegisterThenLogin | app/Http/Controllers/AuthController.php:36-106 | with a sound hasher, logging in with the credentials just registered succeeds |
| AuthController.UnknownEmailSkipsCheck | app/Http/Controllers/AuthController.php:85-90 | an unknown email answers 404 whatever the hasher, so the password is never checked |
| AuthController.LoginIgnoresEmailCase | app/Http/Controllers/AuthController.php:79-82 | login answers the same for an email and its lower-cased form |
| Http.HttpStatus | app/Exceptions/Handler.php:50 | a not-found HTTP exception reports 404; any other reports its own status code |
| ExceptionMiddleware.ApiErrorResponse | app/Http/middleware/GlobalExceptionMiddleware.php:30-66 | first match: authentication 401, validation 422 with the field errors under `messages`, not found 404, OAuth its own status, anything else 500 |
| ExceptionMiddleware.Handle | app/Http/middleware/GlobalExceptionMiddleware.php:16-28 | a downstream answer passes unchanged; a throw gives the JSON error under `api/` and the 500 view elsewhere |
| ExceptionMiddleware.ApiStatusByClass | app/Http/middleware/GlobalExceptionMiddleware.php:32-65 | under `api/` the status depends only on the class (and an OAuth exception's own code) |
| ExceptionMiddleware.ThrownAlwaysAnswered | app/Http/middleware/GlobalExceptionMiddleware.php:20-26 | every throw is answered: JSON exactly under `api/`, otherwise status 500 |
| ExceptionMiddleware.StatusesOutsideOAuth | app/Http/middleware/GlobalExceptionMiddleware.php:32-65 | apart from OAuth exceptions, the status is one of 401, 422, 404, 500 |
| ExceptionHandler.MessageFor | app/Exceptions/Handler.php:43-51 | an HTTP exception's message, or `HTTP Error` when PHP finds it empty; otherwise the default message |
| ExceptionHandler.ApiResponse | app/Exceptions/Handler.php:40-62 | a JSON body with exactly `message` and `error`, `error` holding the exception message; HTTP exceptions keep their status, others get 500 |
| ExceptionHandler.Render | app/Exceptions/Handler.php:23-31 | the JSON path when the request wants JSON or is under `api/`; otherwise the framework's rendering |
| ExceptionHandler.JsonExactlyForApiOrJson | app/Exceptions/Handler.php:26 | the response is JSON exactly when the request wants JSON or is under `api/` |
| ExceptionHandler.AgreementWithMiddleware | app/Exceptions/Handler.php:49-54 | under `api/` the handler and the middleware agree on not-found and plain exceptions, and disagree on authentication, validation and other HTTP exceptions |
| AccessToken.Token | app/Http/middleware/AuthenticateAccessToken.php:28 | the token is what follows `Bearer ` in the header |
| AccessToken.Handle | app/Http/middleware/AuthenticateAccessToken.php:13-39 | no usable header gives 401; otherwise the next handler's answer passes; an exception becomes 500; other throwables propagate |
| AccessToken.AdmitsIffPrefix | app/Http/middleware/AuthenticateAccessToken.php:20 | a present header passes exactly when it starts with `Bearer ` |
| AccessToken.BearerRoundTrip | app/Http/middleware/AuthenticateAccessToken.php:20-28 | `Bearer ` followed by any t passes and yields exactly t |
| AccessToken.TokenNotChecked | app/Http/middleware/AuthenticateAccessToken.php:28-30 | any two `Bearer` headers lead to the same outcome |
| AccessToken.RefusedHeaders | app/Http/middleware/AuthenticateAccessToken.php:18-24 | a missing header and a lower-case `bearer` prefix are both refused with 401 |

## Left out

- HTTP plumbing: the message texts of successful responses, the JSON envelope and route
  registration. Responses are `Responses.Response` values carrying a status and the data
  or rejected fields.
- Passport tokens: issuing, revoking (`logout`) and expiry belong to an OAuth2 library. The
  token is an opaque parameter. `logout` is not modelled.
- Password hashing: `Hash::make`/`Hash::check` are the uninterpreted `Hasher`. Only
  `AuthController.Sound` (`check(p, make(p))`) is assumed, and only where a lemma needs it.
- UUID generation: every `creating` hook's `Str::uuid()` is the parameter `newId`. The
  UUID format rule is the hyphen/hex-digit grammar `Validation.IsUuid`. Version and variant
  digits are not checked.
- The `date` and `email` rules are the parameters `isDate` and `isEmail`.
- Hours are natural numbers. `numeric|min:0` accepts a JSON number at least 0 or a string
  of decimal digits. Other numeric strings the source accepts (a sign, a decimal point, an
  exponent, surrounding spaces) are rejected with 422 by the model where the source
  answers 201, and fractional hours coerced into the integer column are not modelled.
- Database collation: comparisons in `unique`, `where('email', ...)` and `LIKE` are
  case-sensitive in the model. On normalised tables this matches case-insensitive
  behaviour for lower-case input. A collation-dependent outcome, such as the
  second "Priority", is not modelled.
- SQL `LOWER` is ASCII lower-casing, as in SQLite; engines that also fold non-ASCII
  letters (MySQL, PostgreSQL) are not modelled, so a stored value such as "É" filters
  differently there.
- `LIKE` escaping: backslash escapes are not modelled. `%` and `_` in filter values act as
  wildcards.
- Query strings: `filters` is a list of (key, value) pairs. A `filters` that is not an
  array, or array-valued entries, is not modelled. A later duplicate key replaces an earlier
  one in PHP; in the list all pairs apply.
- Input handling: the framework's trimming and empty-string-to-null conversion are
  assumed, so an empty string counts as missing for `required` and as invalid for `string`.
  `password` and `password_confirmation` are not trimmed, and `required` refuses them when
  they hold only characters of PHP's trim set. Values are
  strings, numbers or null. Arrays and booleans are not modelled.
- `exists:` on a numeric value: the model compares only string values against stored
  keys.
- The `ProjectUser` model assigns an `id` that the `project_user` table lacks. The
  resulting SQL error is not modelled; memberships are plain (user, project) pairs.
- Attribute.php, AttributeValue.php and Timesheet.php are not part of this model: their
  key hooks and fillable lists are assumed to match Project.php (generated UUID key, the
  validated fields fillable).
- The users table migration is not part of this model: users have a UUID key and no other
  constraint.
- Timestamps (`created_at`, `updated_at`) and the `users` relation on projects are not
  modelled.
- Concurrency and transactions: each action runs alone. Between validation and insert
  nothing else changes the tables.
- Seeders, routes and service providers are not modelled.
- Logging: the `Log::error` call when the access-token gate catches an exception is not
  modelled; the gate's answer does not depend on it.
- Exceptions other than driver constraint failures (connection loss, serialisation
  errors) are not modelled in the controllers. The 500 paths are reached only through a
  colliding generated key or a constraint the controller does not validate.
