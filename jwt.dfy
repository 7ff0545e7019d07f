/** Bearer tokens: `extractToken` strips the `Bearer ` prefix of an
    authorization header; signing and verifying a token belong to a JWT
    library and are represented by the verifier's outcome. */
module Jwt {
  import opened Common

  /** The exact, case-sensitive prefix of a bearer authorization header. */
  const BearerPrefix: string := "Bearer "

  /** `extractToken`: no token for an absent or empty header or one that
      does not start with the prefix; otherwise the header without its
      first seven characters. */
  function ExtractToken(header: Option<string>): (r: Option<string>)
    ensures r.Some? <==> Present(header) && StartsWith(header.value, BearerPrefix)
    ensures r.Some? ==> header.value == BearerPrefix + r.value
  {
    if !Present(header) || !StartsWith(header.value, BearerPrefix) then None
    else
      assert header.value == header.value[..7] + header.value[7..];
      Some(header.value[7..])
  }

  /** A token put behind the prefix comes back out, the empty one included. */
  lemma ExtractTokenRoundTrip(token: string)
    ensures ExtractToken(Some(BearerPrefix + token)) == Some(token)
  {
    assert (BearerPrefix + token)[..|BearerPrefix|] == BearerPrefix;
    assert (BearerPrefix + token)[7..] == token;
  }

  /** The prefix test is case-sensitive and wants exactly one space. */
  lemma ExtractTokenIsStrict(token: string)
    ensures ExtractToken(Some("bearer " + token)).None?
    ensures ExtractToken(Some("Bearer")).None?
    ensures ExtractToken(None).None?
  {
    assert ("bearer " + token)[0] == 'b';
  }

  /** The claims a verified token carries. */
  datatype Payload = Payload(userId: string, email: string, role: string)

  /** `verifyToken`: the library's verification (which may throw on a bad
      signature or an expired token) turned into a value; a failure gives
      no payload rather than an error. */
  function VerifyToken(token: string, verify: string -> Result<Payload>): (r: Option<Payload>)
    ensures r.Some? <==> verify(token).Ok?
    ensures r.Some? ==> r.value == verify(token).value
  {
    match verify(token)
    case Ok(payload) => Some(payload)
    case Err(_) => None
  }
}
