/** The access-token handling of server/src/jwt.ts. Signing and signature checking belong
    to the jsonwebtoken library and are not modelled: what the library returns for a cookie
    is an input, either the decoded payload or a refusal. */
module Jwt {
  import opened Js

  const ISSUER: string := "https://arr.place"

  /** The fields of a token payload; an absent field is None. */
  datatype Claims = Claims(
    sub: Option<string>,
    jti: Option<string>,
    lst: Option<int>,
    cnt: Option<int>,
    nme: Option<string>,
    ip: Option<string>,
    iss: Option<string>,
    exp: Option<int>)

  /** What `JWT.verify` reports for a cookie: the decoded payload, or an error (bad
      signature, expired, wrong issuer). */
  datatype Verification = Decoded(payload: Claims) | Refused

  /** What `verifyJWT` produces: no cookie, a thrown error (with the status it set, if
      any), or the payload. */
  datatype Verified = NoToken | Threw(status: Option<int>) | Accepted(payload: Claims)

  /** The field check: `sub`, `jti` and `lst` must be truthy and a `cnt` key must exist,
      whatever its value. */
  predicate WellFormed(c: Claims)
  {
    TruthyString(c.sub) && TruthyString(c.jti) && TruthyInt(c.lst) && c.cnt.Some?
  }

  /** `verifyJWT`. The request's IP is only compared for a log line, so it takes no part. */
  function VerifyJwt(cookie: Option<string>, oracle: Verification): (r: Verified)
    ensures r.NoToken? <==> !TruthyString(cookie)
    ensures r.Accepted? <==> TruthyString(cookie) && oracle.Decoded? && WellFormed(oracle.payload)
    ensures r.Accepted? ==> r.payload == oracle.payload
    ensures r.Threw? ==> r.status == (if oracle.Refused? then None else Some(400))
  {
    if !TruthyString(cookie) then NoToken
    else match oracle
      case Refused => Threw(None)
      case Decoded(p) => if WellFormed(p) then Accepted(p) else Threw(Some(400))
  }

  /** A refusal by the library is never turned into an identity: it always throws. */
  lemma RefusalPropagates(cookie: Option<string>)
    requires TruthyString(cookie)
    ensures VerifyJwt(cookie, Refused) == Threw(None)
  {
  }

  /** `lst == 0` is rejected because 0 is falsy, while `cnt == 0` passes because only the
      key is checked. */
  lemma ZeroFields(c: Claims)
    requires TruthyString(c.sub) && TruthyString(c.jti)
    ensures !WellFormed(c.(lst := Some(0), cnt := Some(5)))
    ensures c.lst.Some? && c.lst.value != 0 ==> WellFormed(c.(cnt := Some(0)))
    ensures !WellFormed(c.(cnt := None))
  {
  }

  /** What `applyJWT` does to a payload before signing it again: set `ip` and delete `exp`. */
  function Reissued(c: Claims, ip: string): (r: Claims)
    ensures r.ip == Some(ip) && r.exp == None
    ensures r.sub == c.sub && r.jti == c.jti && r.lst == c.lst && r.cnt == c.cnt
    ensures r.nme == c.nme && r.iss == c.iss
  {
    c.(ip := Some(ip), exp := None)
  }

  /** A reissued token passes the field check exactly when the original did. */
  lemma ReissuePreservesWellFormed(c: Claims, ip: string)
    ensures WellFormed(Reissued(c, ip)) <==> WellFormed(c)
  {
  }

  /** Reissuing twice from the same address is the same as reissuing once. */
  lemma ReissueIdempotent(c: Claims, ip: string)
    ensures Reissued(Reissued(c, ip), ip) == Reissued(c, ip)
  {
  }

  /** A payload object as the handlers hold it: the library's decoded JSON, which the
      handlers and `applyJWT` change field by field. */
  class Payload {
    var sub: Option<string>
    var jti: Option<string>
    var lst: Option<int>
    var cnt: Option<int>
    var nme: Option<string>
    var ip: Option<string>
    var iss: Option<string>
    var exp: Option<int>

    constructor (c: Claims)
      ensures Snapshot() == c
    {
      sub, jti, lst, cnt := c.sub, c.jti, c.lst, c.cnt;
      nme, ip, iss, exp := c.nme, c.ip, c.iss, c.exp;
    }

    /** The payload's current fields, which is what a token signed now carries. */
    function Snapshot(): Claims
      reads this
    {
      Claims(sub, jti, lst, cnt, nme, ip, iss, exp)
    }
  }

  /** `applyJWT`: with no payload it does nothing and returns no user; otherwise it sets
      `ip`, deletes `exp`, issues a cookie with the payload signed as it now is, and
      returns the subject. */
  method ApplyJwt(p: Payload?, reqIp: string) returns (userId: Option<string>, cookie: Option<Claims>)
    modifies p
    ensures p == null ==> userId == None && cookie == None
    ensures p != null ==> p.Snapshot() == Reissued(old(p.Snapshot()), reqIp)
    ensures p != null ==> userId == old(p.sub) && cookie == Some(p.Snapshot())
  {
    if p == null {
      return None, None;
    }
    p.ip := Some(reqIp);
    p.exp := None;
    userId := p.sub;
    cookie := Some(p.Snapshot());
  }
}
