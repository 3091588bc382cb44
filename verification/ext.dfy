/**
  The `IsAuth` extractor (src/ext.rs): the gate every protected handler sits
  behind. It reads the `Authorization` header, turns it into text and hands
  that text to the token parser; any failure becomes one fixed 401 rejection.
*/
module Ext {
  import opened Wrappers
  import opened Http

  /** The claims carried by a token (`crate::user::Clains`); their fields are not modelled. */
  type Claims(==)

  /** Whatever `Clains::from_token` reports when it refuses a token. */
  type TokenError

  /** The extractor's output: the authenticated claims, handed to the handler. */
  datatype IsAuth = IsAuth(claims: Claims)

  /** The head of a request; only its headers matter here. */
  datatype Parts = Parts(requestMethod: string, uri: string, headers: HeaderMap)

  /** The rejection type `(StatusCode, &'static str)`. */
  datatype Rejection = Rejection(status: StatusCode, message: string)

  const NOT_LOGGED_IN := Rejection(UNAUTHORIZED, "You're not allowed to be in here, please login")

  /** `HeaderMap::get` normalises the key "Authorization" to this stored name. */
  const AUTHORIZATION: HeaderName := "authorization"

  lemma AuthorizationKey()
    ensures ToLower("Authorization") == AUTHORIZATION
  {
  }

  /**
    `from_request_parts`. `fromToken` is `Clains::from_token`, whose code is
    not part of this model; `state` is the application state, which the gate
    never reads. Every failure is the same rejection.
  */
  function FromRequestParts<S>(parts: Parts, state: S, fromToken: string -> Result<Claims, TokenError>)
    : (r: Result<IsAuth, Rejection>)
    ensures r.Err? ==> r.error == NOT_LOGGED_IN
  {
    match Get(parts.headers, "Authorization")
    case None => Err(NOT_LOGGED_IN)
    case Some(headerValue) =>
      match ToStr(headerValue)
      case None => Err(NOT_LOGGED_IN)
      case Some(tokenStr) =>
        match fromToken(tokenStr)
        case Ok(claims) => Ok(IsAuth(claims))
        case Err(_) => Err(NOT_LOGGED_IN)
  }

  /**
    The gate admits a request with claims `c` exactly when the first
    `Authorization` header is all visible ASCII and the token parser, given
    that header's text unchanged, returns `c`.
  */
  lemma AdmitsExactly<S>(parts: Parts, state: S, fromToken: string -> Result<Claims, TokenError>, c: Claims)
    ensures FromRequestParts(parts, state, fromToken) == Ok(IsAuth(c)) <==>
      exists i :: FirstNamed(parts.headers, AUTHORIZATION, i)
        && AllVisible(parts.headers[i].value)
        && fromToken(AsciiText(parts.headers[i].value)) == Ok(c)
  {
    AuthorizationKey();
    var h := parts.headers;
    match Get(h, "Authorization")
    case None =>
    case Some(v) =>
      var i :| FirstNamed(h, AUTHORIZATION, i) && v == h[i].value;
      if AllVisible(v) {
        assert ToStr(v).value == AsciiText(v);
      }
  }

  /** Without an `Authorization` header (in any letter case) the request is turned away. */
  lemma MissingHeaderRejected<S>(parts: Parts, state: S, fromToken: string -> Result<Claims, TokenError>)
    requires forall i :: 0 <= i < |parts.headers| ==> parts.headers[i].name != AUTHORIZATION
    ensures FromRequestParts(parts, state, fromToken) == Err(NOT_LOGGED_IN)
  {
    AuthorizationKey();
  }

  /**
    A byte that is not visible ASCII anywhere in the first `Authorization`
    header gets the request turned away, before the token parser is asked.
  */
  lemma UnreadableHeaderRejected<S>(parts: Parts, state: S, fromToken: string -> Result<Claims, TokenError>, i: int, k: int)
    requires FirstNamed(parts.headers, AUTHORIZATION, i)
    requires 0 <= k < |parts.headers[i].value| && !IsVisibleAscii(parts.headers[i].value[k])
    ensures FromRequestParts(parts, state, fromToken) == Err(NOT_LOGGED_IN)
  {
    AuthorizationKey();
  }

  /** A token the parser refuses gets the request turned away. */
  lemma RefusedTokenRejected<S>(parts: Parts, state: S, fromToken: string -> Result<Claims, TokenError>, i: int)
    requires FirstNamed(parts.headers, AUTHORIZATION, i)
    requires AllVisible(parts.headers[i].value) && fromToken(AsciiText(parts.headers[i].value)).Err?
    ensures FromRequestParts(parts, state, fromToken) == Err(NOT_LOGGED_IN)
  {
    AuthorizationKey();
    var v := parts.headers[i].value;
    assert ToStr(v).value == AsciiText(v);
  }

  /** Every way of failing produces the same rejection, so a client cannot tell which step failed. */
  lemma FailuresIndistinguishable<S>(
    p1: Parts, s1: S, f1: string -> Result<Claims, TokenError>,
    p2: Parts, s2: S, f2: string -> Result<Claims, TokenError>)
    requires FromRequestParts(p1, s1, f1).Err? && FromRequestParts(p2, s2, f2).Err?
    ensures FromRequestParts(p1, s1, f1) == FromRequestParts(p2, s2, f2)
  {
  }

  /**
    A header of the form "Bearer <token>" is passed to the token parser whole:
    the scheme prefix is neither checked nor removed.
  */
  lemma BearerPrefixKept<S>(parts: Parts, state: S, fromToken: string -> Result<Claims, TokenError>, token: string, c: Claims)
    requires IsVisibleText("Bearer " + token)
    requires Get(parts.headers, "Authorization") == Some(AsciiBytes("Bearer " + token))
    ensures FromRequestParts(parts, state, fromToken) == Ok(IsAuth(c)) <==> fromToken("Bearer " + token) == Ok(c)
  {
    ToStrOfAsciiBytes("Bearer " + token);
  }

  /**
    Only the first `Authorization` header is consulted: the application
    state, the method, the target and every other header make no difference.
  */
  lemma OnlyAuthorizationMatters<S>(p1: Parts, s1: S, p2: Parts, s2: S, fromToken: string -> Result<Claims, TokenError>)
    requires Get(p1.headers, "Authorization") == Get(p2.headers, "Authorization")
    ensures FromRequestParts(p1, s1, fromToken) == FromRequestParts(p2, s2, fromToken)
  {
  }

  /** Adding a header of any other name, at any position, leaves the decision unchanged. */
  lemma OtherHeadersIgnored<S>(parts: Parts, state: S, fromToken: string -> Result<Claims, TokenError>, i: nat, x: Header)
    requires i <= |parts.headers| && x.name != AUTHORIZATION
    ensures FromRequestParts(parts.(headers := parts.headers[..i] + [x] + parts.headers[i..]), state, fromToken)
         == FromRequestParts(parts, state, fromToken)
  {
    AuthorizationKey();
    GetIgnoresOtherNames(parts.headers, i, x, "Authorization");
  }
}
