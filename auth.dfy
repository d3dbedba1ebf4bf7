/**
 * Bearer-token extraction from an Authorization header, and the principal a
 * verified token stands for. Token signing and verification (JWT) and
 * password hashing are library calls and stay outside the model; a handler
 * receives the verifier as a function from token to principal.
 */
module Auth {
  import opened Types
  import opened Text

  /** The principal a valid token decodes to. */
  datatype User = User(id: string, email: string, name: string, role: string)

  const BearerPrefix: string := "Bearer "

  /**
   * `getAuthToken`: a header that starts with "Bearer " (case-sensitive)
   * yields what follows the prefix; anything else, or no header, yields nothing.
   */
  function GetAuthToken(authorization: Option<string>): (r: Option<string>)
    ensures r.Some? <==> authorization.Some? && StartsWith(authorization.value, BearerPrefix)
    ensures r.Some? ==> authorization.value == BearerPrefix + r.value
    ensures r.Some? ==> |r.value| == |authorization.value| - 7
  {
    match authorization
    case None => None
    case Some(h) =>
      if h != "" && StartsWith(h, BearerPrefix) then
        assert h == h[..7] + h[7..];
        Some(h[7..])
      else None
  }

  /** Prefixing a token and extracting it again gives the token back, the empty token included. */
  lemma {:induction false} BearerRoundTrip(t: string)
    ensures GetAuthToken(Some(BearerPrefix + t)) == Some(t)
  {
    var h := BearerPrefix + t;
    assert h[..7] == BearerPrefix;
    assert h[7..] == t;
  }
}
