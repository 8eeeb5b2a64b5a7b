/**
 * `AuthController`: registration and login. The password hasher, the email grammar and
 * the issued access token are parameters: `Hash::make`/`Hash::check`, the `email` rule
 * and Passport's token are outside this model. Validation failures answer 400 here.
 */
module AuthController {
  import opened Wrappers
  import opened Text
  import opened Rows
  import opened Schema
  import opened Validation
  import opened Responses
  import opened Database

  /** `Hash::make` and `Hash::check`, uninterpreted. */
  datatype Hasher = Hasher(make: string -> string, check: (string, string) -> bool)

  /** The one property the controllers rely on: a hash checks against its own password. */
  ghost predicate Sound(h: Hasher)
  {
    forall p :: h.check(p, h.make(p))
  }

  /** The `min:8` bound on passwords. */
  const MinPassword: nat := 8

  /** Login looks users up by their `email` column. */
  function EmailKey(u: User): string { u.email }

  /** `email` on `register`: `required|string|email|max:255|unique:users`, unique as submitted. */
  predicate RegisterEmailAccepted(t: Tables, input: Input, isEmail: string -> bool)
  {
    RequiredString(input, "email", MaxString) && isEmail(input["email"].s) &&
    !HasKey(t.users, EmailKey, input["email"].s)
  }

  /** `password` on `register`: `required|string|min:8|confirmed`, on the untrimmed password. */
  predicate PasswordAccepted(input: Input)
  {
    "password" in input && FilledUntrimmed(input["password"]) && |input["password"].s| >= MinPassword &&
    "password_confirmation" in input && input["password_confirmation"] == input["password"]
  }

  /** The fields `register` rejects. */
  function RegisterErrors(t: Tables, input: Input, isEmail: string -> bool): (e: set<string>)
    ensures "first_name" in e <==> !RequiredString(input, "first_name", MaxString)
    ensures "last_name" in e <==> !RequiredString(input, "last_name", MaxString)
    ensures "email" in e <==> !RegisterEmailAccepted(t, input, isEmail)
    ensures "password" in e <==> !PasswordAccepted(input)
    ensures e <= {"first_name", "last_name", "email", "password"}
  {
    (if RequiredString(input, "first_name", MaxString) then {} else {"first_name"}) +
    (if RequiredString(input, "last_name", MaxString) then {} else {"last_name"}) +
    (if RegisterEmailAccepted(t, input, isEmail) then {} else {"email"}) +
    (if PasswordAccepted(input) then {} else {"password"})
  }

  /** The user `register` inserts under the generated key `newId`: names and email lower-cased, password hashed. */
  function NewUser(t: Tables, input: Input, h: Hasher, newId: Uuid, isEmail: string -> bool): (u: User)
    requires RegisterErrors(t, input, isEmail) == {}
    ensures u.id == newId
    ensures u.firstName == Lower(input["first_name"].s) && IsLower(u.firstName)
    ensures u.lastName == Lower(input["last_name"].s) && IsLower(u.lastName)
    ensures u.email == Lower(input["email"].s) && IsLower(u.email)
    ensures u.password == h.make(input["password"].s)
    ensures (forall p :: h.make(p) != p) ==> u.password != input["password"].s
  {
    User(newId, Lower(input["first_name"].s), Lower(input["last_name"].s), Lower(input["email"].s),
         h.make(input["password"].s))
  }

  /** `register`: validate, lower-case, insert the user with the hashed password, answer with `token`. */
  method Register(db: Database, input: Input, h: Hasher, isEmail: string -> bool, newId: Uuid, token: string)
    returns (r: Response<string>)
    requires db.Valid()
    modifies db
    ensures db.Valid()
    ensures old(db.Normalised()) ==> db.Normalised()
    ensures RegisterErrors(old(db.State()), input, isEmail) != {} ==>
              r == Invalid(400, RegisterErrors(old(db.State()), input, isEmail)) && db.State() == old(db.State())
    ensures RegisterErrors(old(db.State()), input, isEmail) == {} && HasKey(old(db.users), UserKey, newId) ==>
              r == ServerError(DuplicateKey) && db.State() == old(db.State())
    ensures RegisterErrors(old(db.State()), input, isEmail) == {} && !HasKey(old(db.users), UserKey, newId) ==>
              var u := NewUser(old(db.State()), input, h, newId, isEmail);
              r == Success(201, token) && db.State() == old(db.State()).(users := old(db.users) + [u])
  {
    var errors := RegisterErrors(db.State(), input, isEmail);
    if errors != {} {
      return Invalid(400, errors);
    }
    var u := NewUser(db.State(), input, h, newId, isEmail);
    var err := db.InsertUser(u);
    if err.Some? {
      return ServerError(err.value);
    }
    r := Success(201, token);
  }

  /** The fields `login` rejects: `email` is `required|string|email`, `password` is `required|string`. */
  function LoginErrors(input: Input, isEmail: string -> bool): (e: set<string>)
    ensures "email" in e <==> !("email" in input && FilledString(input["email"]) && isEmail(input["email"].s))
    ensures "password" in e <==> !("password" in input && FilledUntrimmed(input["password"]))
    ensures e <= {"email", "password"}
  {
    (if "email" in input && FilledString(input["email"]) && isEmail(input["email"].s) then {} else {"email"}) +
    (if "password" in input && FilledUntrimmed(input["password"]) then {} else {"password"})
  }

  /**
   * `login`: validate, lower-case the email, take the first user with that email, check
   * the password against the stored hash, and answer with `token`.
   */
  function Login(t: Tables, input: Input, h: Hasher, isEmail: string -> bool, token: string): (r: Response<string>)
    ensures LoginErrors(input, isEmail) != {} ==> r == Invalid(400, LoginErrors(input, isEmail))
    ensures LoginErrors(input, isEmail) == {} ==>
              (r.NotFound? <==> !HasKey(t.users, EmailKey, Lower(input["email"].s)))
    ensures LoginErrors(input, isEmail) == {} && HasKey(t.users, EmailKey, Lower(input["email"].s)) ==>
              var u := t.users[IndexOf(t.users, EmailKey, Lower(input["email"].s)).value];
              u.email == Lower(input["email"].s) &&
              (h.check(input["password"].s, u.password) ==> r == Success(200, token)) &&
              (!h.check(input["password"].s, u.password) ==> r == Unauthorized)
  {
    var errors := LoginErrors(input, isEmail);
    if errors != {} then Invalid(400, errors)
    else
      var email := Lower(input["email"].s);
      match IndexOf(t.users, EmailKey, email)
      case None => NotFound
      case Some(i) =>
        if h.check(input["password"].s, t.users[i].password) then Success(200, token) else Unauthorized
  }

  // ---------------------------------------------------------------------------
  // Properties
  // ---------------------------------------------------------------------------

  /**
   * With a sound hasher, logging in with the email and password just registered succeeds,
   * provided no earlier user holds the same lower-cased email.
   */
  lemma RegisterThenLogin(t: Tables, input: Input, h: Hasher, isEmail: string -> bool, newId: Uuid, token: string)
    requires Sound(h)
    requires RegisterErrors(t, input, isEmail) == {}
    requires !HasKey(t.users, EmailKey, Lower(input["email"].s))
    ensures var u := NewUser(t, input, h, newId, isEmail);
            var credentials := map["email" := input["email"], "password" := input["password"]];
            Login(t.(users := t.users + [u]), credentials, h, isEmail, token) == Success(200, token)
  {
    var u := NewUser(t, input, h, newId, isEmail);
    var users := t.users + [u];
    var email := Lower(input["email"].s);
    assert users[|t.users|] == u;
    assert HasKey(users, EmailKey, email) by { assert users[|t.users|] in users; }
    var i := IndexOf(users, EmailKey, email).value;
    assert i == |t.users|;
    assert h.check(input["password"].s, h.make(input["password"].s));
  }

  /**
   * A password made only of blanks is refused by both `register` and `login`, whatever
   * its length: the password fields are not trimmed, but `required` trims before testing.
   */
  lemma BlankPasswordRejected(t: Tables, input: Input, isEmail: string -> bool)
    requires "password" in input && input["password"].Str?
    requires forall i :: 0 <= i < |input["password"].s| ==> IsTrimChar(input["password"].s[i])
    ensures "password" in RegisterErrors(t, input, isEmail)
    ensures "password" in LoginErrors(input, isEmail)
  {
  }

  /** An unknown email answers 404 whatever the password and whatever the hasher: the hash is never consulted. */
  lemma UnknownEmailSkipsCheck(t: Tables, input: Input, h1: Hasher, h2: Hasher, isEmail: string -> bool, token: string)
    requires LoginErrors(input, isEmail) == {}
    requires !HasKey(t.users, EmailKey, Lower(input["email"].s))
    ensures Login(t, input, h1, isEmail, token) == NotFound
    ensures Login(t, input, h2, isEmail, token) == NotFound
  {
  }

  /** Login does not care about the case of the submitted email. */
  lemma LoginIgnoresEmailCase(t: Tables, input: Input, h: Hasher, isEmail: string -> bool, token: string)
    requires "email" in input && input["email"].Str? && input["email"].s != ""
    requires isEmail(input["email"].s) && isEmail(Lower(input["email"].s))
    ensures Login(t, input, h, isEmail, token) ==
            Login(t, input["email" := Str(Lower(input["email"].s))], h, isEmail, token)
  {
    var e := input["email"].s;
    LowerIdempotent(e);
    var lowered := input["email" := Str(Lower(e))];
    assert LoginErrors(lowered, isEmail) == LoginErrors(input, isEmail);
  }
}
