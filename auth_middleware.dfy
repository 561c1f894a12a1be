/**
 * `AuthMiddleware.authenticate`: the Authorization header is read as
 * `Bearer <token>`, the token is verified, and the vendor it names is put on
 * the request. JWT verification is a parameter.
 */
module AuthMiddleware {
  import opened Wrappers
  import opened Strings
  import opened Responses
  import opened Store

  /** What verifying a token gives: a throw (bad signature, expired, malformed) or the id it carries. */
  datatype TokenOutcome = TokenThrew | Decoded(id: VendorId)

  /** The middleware's result: a returned error object, a thrown one, or the vendor. */
  datatype AuthOutcome = Returned(reply: Ack) | Thrown(reply: Ack) | Authenticated(vendor: Vendor)

  /** The token of a well-formed header: part 0 of the split on spaces is `Bearer` and part 1 is non-empty. */
  function BearerToken(header: string): (t: Option<string>)
    ensures t.Some? <==> var parts := Split(header, ' '); |parts| >= 2 && parts[0] == "Bearer" && parts[1] != ""
    ensures t.Some? ==> t.value == Split(header, ' ')[1] && ' ' !in t.value
  {
    var parts := Split(header, ' ');
    if |parts| >= 2 && parts[0] == "Bearer" && parts[1] != "" then Some(parts[1]) else None
  }

  /**
   * A missing or empty header is refused without looking at any token; a
   * malformed one throws INVALID_AUTHORIZATION; a token that fails to verify
   * gives an internal error; an id without a vendor gives INVALID_USER.
   */
  function Decide(header: Option<string>, verify: string -> TokenOutcome, vendors: map<VendorId, Vendor>): (r: AuthOutcome)
    ensures header.None? || header == Some("") <==> r == Returned(Failure(Authorization, RequiredAuthorization))
    ensures r.Thrown? <==> header.Some? && header.value != "" && BearerToken(header.value).None?
    ensures r.Thrown? ==> r.reply == Failure(Authorization, InvalidAuthorization)
    ensures r.Authenticated? <==>
      && header.Some? && BearerToken(header.value).Some?
      && verify(BearerToken(header.value).value).Decoded?
      && verify(BearerToken(header.value).value).id in vendors
    ensures r.Authenticated? ==> r.vendor == vendors[verify(BearerToken(header.value).value).id]
    ensures header.Some? && BearerToken(header.value).Some? && verify(BearerToken(header.value).value).TokenThrew? ==>
      r == Returned(InternalError())
    ensures header.Some? && BearerToken(header.value).Some? && verify(BearerToken(header.value).value).Decoded?
            && verify(BearerToken(header.value).value).id !in vendors ==>
      r == Returned(Failure(Validation, InvalidUser))
  {
    if header.None? || header.value == "" then Returned(Failure(Authorization, RequiredAuthorization))
    else
      match BearerToken(header.value)
      case None => Thrown(Failure(Authorization, InvalidAuthorization))
      case Some(token) =>
        match verify(token)
        case TokenThrew => Returned(InternalError())
        case Decoded(id) =>
          if id !in vendors then Returned(Failure(Validation, InvalidUser)) else Authenticated(vendors[id])
  }

  /** The request the middleware runs on: its Authorization header and the `user` it sets. */
  class Request {
    const authorization: Option<string>
    var user: Option<Vendor>

    constructor (authorization: Option<string>)
      ensures this.authorization == authorization && user.None?
    {
      this.authorization := authorization;
      user := None;
    }

    /** Only a successful authentication sets `request.user`, to the vendor it returns. */
    method Authenticate(verify: string -> TokenOutcome, vendors: map<VendorId, Vendor>) returns (r: AuthOutcome)
      modifies this
      ensures r == Decide(authorization, verify, vendors)
      ensures user == if r.Authenticated? then Some(r.vendor) else old(user)
    {
      if authorization.None? || authorization.value == "" {
        return Returned(Failure(Authorization, RequiredAuthorization));
      }
      var details := Split(authorization.value, ' ');
      if !(|details| >= 2 && details[0] == "Bearer" && details[1] != "") {
        return Thrown(Failure(Authorization, InvalidAuthorization));
      }
      var decoded := verify(details[1]);
      if decoded.TokenThrew? {
        return Returned(InternalError());
      }
      if decoded.id !in vendors {
        return Returned(Failure(Validation, InvalidUser));
      }
      user := Some(vendors[decoded.id]);
      return Authenticated(vendors[decoded.id]);
    }
  }

  /** `Bearer <token>` with a space-free token is accepted and yields that token. */
  lemma {:induction false} BearerAccepted(token: string)
    requires token != "" && ' ' !in token
    ensures BearerToken("Bearer " + token) == Some(token)
  {
    var parts := ["Bearer", token];
    assert Join(parts[1..], ' ') == token;
    assert Join(parts, ' ') == "Bearer " + token;
    SplitJoin(parts, ' ');
  }

  /** Whatever follows the token after a further space is ignored. */
  lemma {:induction false} TrailingPartsIgnored(token: string, rest: string)
    requires token != "" && ' ' !in token
    ensures BearerToken("Bearer " + token + " " + rest) == Some(token)
  {
    var tail := Split(rest, ' ');
    SplitSeparatorFree(token, " " + rest, ' ');
    assert (" " + rest)[1..] == rest;
    assert Split(" " + rest, ' ') == [""] + tail;
    var afterBearer := Split(token + " " + rest, ' ');
    assert token + (" " + rest) == token + " " + rest;
    assert afterBearer[0] == token;
    SplitSeparatorFree("Bearer", " " + token + " " + rest, ' ');
    assert (" " + token + " " + rest)[1..] == token + " " + rest;
    assert "Bearer" + (" " + token + " " + rest) == "Bearer " + token + " " + rest;
  }

  /** Two spaces after `Bearer` leave part 1 empty, so the header is refused. */
  lemma {:induction false} DoubleSpaceRefused(token: string)
    ensures BearerToken("Bearer  " + token).None?
  {
    SplitSeparatorFree("Bearer", "  " + token, ' ');
    assert ("  " + token)[1..] == " " + token;
    assert (" " + token)[1..] == token;
    assert "Bearer" + ("  " + token) == "Bearer  " + token;
  }

  /** `Bearer` without a token is a single part and is refused. */
  lemma BareBearerRefused()
    ensures BearerToken("Bearer").None?
  {
    SplitSeparatorFree("Bearer", "", ' ');
    assert "Bearer" + "" == "Bearer";
  }

  /** The scheme is compared case-sensitively. */
  lemma {:induction false} SchemeIsCaseSensitive(token: string)
    ensures BearerToken("bearer " + token).None?
  {
    SplitSeparatorFree("bearer", " " + token, ' ');
    assert "bearer" + (" " + token) == "bearer " + token;
    assert Split(" " + token, ' ')[0] == "";
    assert Split("bearer " + token, ' ')[0] == "bearer";
    assert "bearer"[0] != "Bearer"[0];
  }

  /** A missing header is refused the same way whatever the token verifier would do. */
  lemma MissingHeaderIgnoresVerifier(verify1: string -> TokenOutcome, verify2: string -> TokenOutcome, vendors: map<VendorId, Vendor>)
    ensures Decide(None, verify1, vendors) == Decide(None, verify2, vendors)
         == Returned(Failure(Authorization, RequiredAuthorization))
  {
  }

  /** A token naming no vendor is refused as an invalid user and the request stays without a user. */
  lemma UnknownVendorRefused(token: string, verify: string -> TokenOutcome, vendors: map<VendorId, Vendor>, id: VendorId)
    requires token != "" && ' ' !in token
    requires verify(token) == Decoded(id) && id !in vendors
    ensures Decide(Some("Bearer " + token), verify, vendors) == Returned(Failure(Validation, InvalidUser))
  {
    BearerAccepted(token);
  }
}
