/**
 The `auth` middleware of validation/verifyToken.js: the decision whether a
 request carrying an `Authorization` header reaches the protected route. The
 signature check is an oracle `verify` that either yields the token's claims
 or rejects the token with a message; `now` is the clock reading in
 milliseconds since the epoch.
 */
module Tokens {
  import opened Lists
  import opened Store
  import opened Http

  /** What `jwt.verify` makes of a token */
  datatype Verification = Verified(claims: Claims) | Rejected(message: string)

  /** The middleware's outcome: the request goes on to the route with
      `req.user` set to the claims, or it is answered here */
  datatype Gate = Admit(user: Claims) | Refuse(reply: Reply)

  /** `if (!token)`: an absent header and an empty one both count as no token */
  predicate HasToken(header: Option<string>) {
    header.Some? && header.value != ""
  }

  /** `expiry < currentDate`. A claim that is absent or not a date compares
      false, so such a token never expires. */
  predicate Expired(c: Claims, now: int) {
    c.expiry.Some? && c.expiry.value < now
  }

  /** The decision once a token is present: verification failure and expiry
      are both answered 401 with the error's message */
  function CheckToken(token: string, verify: string -> Verification, now: int): (g: Gate)
    ensures g.Admit? <==> verify(token).Verified? && !Expired(verify(token).claims, now)
    ensures g.Admit? ==> g.user == verify(token).claims
    ensures verify(token).Rejected? ==> g == Refuse(Sent(401, Text(verify(token).message)))
    ensures verify(token).Verified? && Expired(verify(token).claims, now) ==> g == Refuse(Sent(401, Text("Token has expired")))
  {
    match verify(token)
    case Rejected(message) => Refuse(Sent(401, Text(message)))
    case Verified(c) =>
      if Expired(c, now) then Refuse(Sent(401, Text("Token has expired")))
      else Admit(c)
  }

  /** `auth` as evidently intended: a request without a token is answered 401
      "Access Denied No token provided" */
  function Authenticate(header: Option<string>, verify: string -> Verification, now: int): (g: Gate)
    ensures g.Admit? <==> HasToken(header) && verify(header.value).Verified? && !Expired(verify(header.value).claims, now)
    ensures g.Admit? ==> g.user == verify(header.value).claims
    ensures !HasToken(header) ==> g == Refuse(Sent(401, Text("Access Denied No token provided")))
    ensures g.Refuse? ==> g.reply.Sent? && g.reply.status == 401
  {
    if !HasToken(header) then Refuse(Sent(401, Text("Access Denied No token provided")))
    else CheckToken(header.value, verify, now)
  }

  /** `auth` as written: without a token, the logging call reads `req.user._id`
      while `req.user` is still undefined, so the middleware throws and the
      request goes to the error handler instead */
  function AuthenticateAsWritten(header: Option<string>, verify: string -> Verification, now: int): (g: Gate)
    ensures !HasToken(header) ==> g == Refuse(Raised(Thrown("Cannot read properties of undefined (reading '_id')")))
    ensures HasToken(header) ==> g == Authenticate(header, verify, now)
  {
    if !HasToken(header) then Refuse(Raised(Thrown("Cannot read properties of undefined (reading '_id')")))
    else CheckToken(header.value, verify, now)
  }

  /** Without a token the written middleware never sends its 401: the
      request ends in the error handler's 500 */
  lemma NoTokenAnswered500(verify: string -> Verification, now: int)
    ensures var g := AuthenticateAsWritten(None, verify, now);
            && g.Refuse? && g.reply.Raised?
            && ErrorHandlerStatus(g.reply.error) == Some(500)
            && g != Authenticate(None, verify, now)
  {
  }

  /** A verified token is admitted exactly while `now` has not passed its
      `expiry`: the instant of expiry itself is still admitted */
  lemma AdmittedUntilExpiry(token: string, verify: string -> Verification, c: Claims, t: int, now: int)
    requires token != "" && verify(token) == Verified(c) && c.expiry == Some(t)
    ensures Authenticate(Some(token), verify, now).Admit? <==> now <= t
  {
  }

  /** A verified token without a usable `expiry` claim is admitted at every
      time */
  lemma NoExpiryNeverExpires(token: string, verify: string -> Verification, c: Claims, now: int)
    requires token != "" && verify(token) == Verified(c) && c.expiry.None?
    ensures Authenticate(Some(token), verify, now) == Admit(c)
  {
  }
}
