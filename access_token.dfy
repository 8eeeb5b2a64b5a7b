/**
 * `AuthenticateAccessToken`: lets a request through only when its `Authorization` header
 * starts with `Bearer `. The token after the prefix is extracted but never checked here.
 */
module AccessToken {
  import opened Wrappers
  import opened Text
  import opened Http

  /** The required prefix, trailing space included, compared case-sensitively. */
  const Prefix: string := "Bearer "

  /** The gate's test: a header is present, PHP-truthy, and starts with the prefix. */
  predicate Admits(header: Option<string>)
  {
    header.Some? && !Falsy(header.value) && StartsWith(header.value, Prefix)
  }

  /** `substr($authorization, 7)`: the token after the prefix. */
  function Token(header: string): (t: string)
    requires StartsWith(header, Prefix)
    ensures header == Prefix + t
  {
    Drop(header, |Prefix|)
  }

  /** The 401 answer to a request without a usable header. */
  const MissingToken: HttpResponse :=
    Json(401, map["error" := Text("Unauthorized"), "message" := Text("Access token is required")])

  /** The 500 answer when an exception surfaces through the gate. */
  const GateFailure: HttpResponse :=
    Json(500, map["error" := Text("Internal Server Error"), "message" := Text("Something went wrong")])

  /**
   * `handle`: refuse without a usable header; otherwise the next handler's outcome, with
   * an `Exception` turned into 500 and any other throwable passed on.
   */
  function Handle(req: Request, next: Outcome): (r: Outcome)
    ensures !Admits(req.authorization) ==> r == Returned(MissingToken)
    ensures Admits(req.authorization) && next.Returned? ==> r == next
    ensures Admits(req.authorization) && next.Threw? && IsException(next.error.kind) ==> r == Returned(GateFailure)
    ensures Admits(req.authorization) && next.Threw? && !IsException(next.error.kind) ==> r == next
  {
    if !Admits(req.authorization) then Returned(MissingToken)
    else match next
      case Returned(_) => next
      case Threw(e) => if IsException(e.kind) then Returned(GateFailure) else next
  }

  /** The truthiness test adds nothing: a header passes exactly when it starts with the prefix. */
  lemma AdmitsIffPrefix(header: string)
    ensures Admits(Some(header)) <==> StartsWith(header, Prefix)
  {
    if StartsWith(header, Prefix) {
      assert header[0] == 'B';
    }
  }

  /** Every `Bearer <t>` header passes and yields exactly `t`. */
  lemma BearerRoundTrip(t: string)
    ensures Admits(Some(Prefix + t))
    ensures Token(Prefix + t) == t
  {
    AdmitsIffPrefix(Prefix + t);
    assert Prefix <= Prefix + t;
  }

  /** The token's value never matters: any two `Bearer` headers lead to the same outcome. */
  lemma TokenNotChecked(req: Request, t1: string, t2: string, next: Outcome)
    ensures Handle(req.(authorization := Some(Prefix + t1)), next) ==
            Handle(req.(authorization := Some(Prefix + t2)), next)
  {
    BearerRoundTrip(t1);
    BearerRoundTrip(t2);
  }

  /** A missing header and a lower-case `bearer` prefix are both refused. */
  lemma RefusedHeaders(req: Request, next: Outcome, t: string)
    ensures Handle(req.(authorization := None), next) == Returned(MissingToken)
    ensures Handle(req.(authorization := Some("bearer " + t)), next) == Returned(MissingToken)
  {
    var h := "bearer " + t;
    assert h[0] == 'b';
    AdmitsIffPrefix(h);
  }
}
