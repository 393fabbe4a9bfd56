/**
 * The `verifyToken` middleware and the ownership guard of GET /orders.
 * Signature checking and expiry are an oracle `verify` from the cookie's
 * text to the decoded claims (None when jwt.verify reports an error).
 */
module Auth {
  import opened Wrappers
  import opened Bson
  import opened Collection

  /** The decoded JWT payload, attached to the request as `req.user`. */
  type Claims = Doc

  /** What the middleware does with a request. */
  datatype Gate = NoToken | BadToken | Verified(user: Claims)

  /** JavaScript truthiness of an optional string: both undefined and "" are falsy. */
  predicate Present(s: Option<string>)
  {
    s.Some? && s.value != ""
  }

  /**
   * A missing or empty `token` cookie is refused without consulting the oracle;
   * otherwise the oracle decides and its decoded claims become `req.user`.
   * Both refusals answer 401.
   */
  function VerifyToken(cookie: Option<string>, verify: string -> Option<Claims>): (g: Gate)
    ensures g.NoToken? <==> !Present(cookie)
    ensures g.BadToken? <==> Present(cookie) && verify(cookie.value).None?
    ensures g.Verified? ==> Present(cookie) && verify(cookie.value) == Some(g.user)
  {
    if !Present(cookie) then NoToken
    else match verify(cookie.value)
      case None => BadToken
      case Some(claims) => Verified(claims)
  }

  datatype Decision = Allow | Forbid

  /** `req.user.email` as JavaScript reads it: undefined when the claim is absent. */
  function ClaimedEmail(user: Claims): Option<Value>
  {
    if "email" in user then Some(user["email"]) else None
  }

  /**
   * The guard `req.query?.email !== req.user.email`: strict equality between the
   * query's email (a string or undefined) and the token's email claim (any value
   * or undefined). An absent query email passes only when the token has no email.
   */
  function CheckOwner(queryEmail: Option<string>, user: Claims): (d: Decision)
    ensures d == Allow <==>
      match queryEmail
      case None => "email" !in user
      case Some(q) => "email" in user && user["email"] == Str(q)
  {
    var asked: Option<Value> := if queryEmail.Some? then Some(Str(queryEmail.value)) else None;
    if asked != ClaimedEmail(user) then Forbid else Allow
  }

  /**
   * The find filter GET /orders (on `orderedBy`) and GET /foods (on `user_email`)
   * build: on the field only when the query email is truthy.
   */
  function EmailFilter(field: string, queryEmail: Option<string>): (q: Query)
    ensures forall d :: Matches(q, d) <==> (Present(queryEmail) ==> Get(d, field) == Str(queryEmail.value))
  {
    if Present(queryEmail) then FieldEquals(field, Str(queryEmail.value)) else All
  }

  /** Once admitted with a truthy query email, the listing is scoped to the token's own email. */
  lemma AdmittedQueryIsOwnEmail(queryEmail: Option<string>, user: Claims)
    requires CheckOwner(queryEmail, user) == Allow && Present(queryEmail)
    ensures "email" in user && EmailFilter("orderedBy", queryEmail) == FieldEquals("orderedBy", user["email"])
  {
  }

  /**
   * An admitted request lists every order unfiltered exactly when the token has no
   * email claim and no email is asked for, or both are the empty string.
   */
  lemma UnscopedListing(queryEmail: Option<string>, user: Claims)
    requires CheckOwner(queryEmail, user) == Allow
    ensures EmailFilter("orderedBy", queryEmail) == All <==> "email" !in user || user["email"] == Str("")
  {
  }

  /**
   * A token the oracle accepts whose claims carry the email `e` (one issued by
   * POST /jwt for that email, within its hour) passes the middleware and the
   * guard for `e`'s own orders.
   */
  lemma OwnerAdmitted(token: string, verify: string -> Option<Claims>, e: string)
    requires token != "" && verify(token).Some? && ClaimedEmail(verify(token).value) == Some(Str(e))
    ensures VerifyToken(Some(token), verify) == Verified(verify(token).value)
    ensures CheckOwner(Some(e), verify(token).value) == Allow
  {
  }
}
