/** The `protect` middleware: it reads a bearer token from the
    `Authorization` header, verifies it, and hands the decoded claims, plus
    an `_id` copied from `id`, to the next handler. Token verification is a
    parameter: it yields the decoded claims or fails. Claims are a map from
    field name to value; an absent key stands for `undefined`. */
module AuthMiddleware {
  import opened Js

  const BearerPrefix := "Bearer "
  const NoTokenMessage := "Access denied. No token provided."
  const InvalidTokenMessage := "Invalid token"

  type Claims = map<string, string>

  /** Either a 401 with its message, or `next()` called with `req.user`. */
  datatype Outcome = Unauthorized(message: string) | Next(user: Claims)

  /** `{ ...decoded, _id: decoded.id }` */
  function RequestUser(decoded: Claims): (user: Claims)
    ensures forall k | k != "_id" :: (k in user <==> k in decoded) && (k in decoded ==> user[k] == decoded[k])
    ensures "id" in decoded ==> "_id" in user && user["_id"] == decoded["id"]
    ensures "id" !in decoded ==> "_id" !in user
  {
    if "id" in decoded then decoded["_id" := decoded["id"]] else decoded - {"_id"}
  }

  /** The token part of an accepted header. */
  function TokenOf(header: string): (token: string)
    requires StartsWith(header, BearerPrefix)
    ensures BearerPrefix + token == header
  {
    header[7..]
  }

  /** `protect`, for the header value (`None` when absent). */
  function Protect(header: Option<string>, verify: string -> Option<Claims>): (r: Outcome)
    ensures (Missing(header) || !StartsWith(header.value, BearerPrefix)) ==> r == Unauthorized(NoTokenMessage)
    ensures !Missing(header) && StartsWith(header.value, BearerPrefix) ==>
      var token := TokenOf(header.value);
      (verify(token).None? ==> r == Unauthorized(InvalidTokenMessage))
      && (verify(token).Some? ==> r == Next(RequestUser(verify(token).value)))
  {
    if Missing(header) || !StartsWith(header.value, BearerPrefix) then Unauthorized(NoTokenMessage)
    else
      match verify(header.value[7..])
      case None => Unauthorized(InvalidTokenMessage)
      case Some(decoded) => Next(RequestUser(decoded))
  }

  /** A header built as `"Bearer " + token` hands exactly `token` to the
      verifier. */
  lemma BearerRoundTrip(token: string, verify: string -> Option<Claims>)
    ensures verify(token).None? ==> Protect(Some(BearerPrefix + token), verify) == Unauthorized(InvalidTokenMessage)
    ensures verify(token).Some? ==> Protect(Some(BearerPrefix + token), verify) == Next(RequestUser(verify(token).value))
  {
    var h := BearerPrefix + token;
    assert h[..7] == BearerPrefix;
    assert h[7..] == token;
  }

  /** The prefix test is case-sensitive: a lower-case scheme is refused
      whatever the verifier would say. */
  lemma LowerCaseSchemeRefused(token: string, verify: string -> Option<Claims>)
    ensures Protect(Some("bearer " + token), verify) == Unauthorized(NoTokenMessage)
  {
    var h := "bearer " + token;
    assert h[0] == 'b';
  }

  /** A header that is just the scheme, with nothing after it, passes the
      prefix test and reaches the verifier with the empty token. */
  lemma BareSchemeReachesVerifier(verify: string -> Option<Claims>)
    ensures verify("").None? ==> Protect(Some(BearerPrefix), verify) == Unauthorized(InvalidTokenMessage)
  {
    assert BearerPrefix[7..] == "";
  }

  /** Mapping the claims twice changes nothing more. */
  lemma RequestUserIdempotent(decoded: Claims)
    ensures RequestUser(RequestUser(decoded)) == RequestUser(decoded)
  {
  }
}
