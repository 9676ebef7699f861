/** The request handlers of server/src/server.ts that touch the canvas: `PUT /place`,
    `POST /register` and the coordinate check of `GET /info/:x/:y`. A handler reads the
    clock once (`now`, in seconds); the captcha service, the token library and the fresh
    identifiers it draws are inputs. */
module Server {
  import opened Js
  import opened Bytes
  import opened Util
  import opened Data
  import opened Jwt
  import opened Chunks
  import opened Store

  /** What `verifyCaptcha` reports: no token or a failed check, a token issued for another
      host (the helper has already answered 400), or success with the score, if any. */
  datatype Captcha = Failed | WrongHost | Passed(score: Option<real>)

  /** What a handler sends back: an empty reply with a status, the `next` time of a
      placement, the user id of a registration, or nothing at all because the async
      handler threw. */
  datatype Reply = Status(code: int) | Next(next: int) | User(id: string) | Crash

  /** The parts of a `PUT /place` request the handler looks at. */
  datatype Request = Request(
    body: Option<seq<Num>>,
    cookie: Option<string>,
    oracle: Verification,
    xUser: Option<string>,
    captcha: Captcha,
    ip: string)

  /** The result of the checks in front of a placement: refuse with a status, or go ahead
      with the coordinates, the colour and the payload. */
  datatype Gate = Refuse(code: int) | Go(x: nat, y: nat, v: nat, claims: Claims)

  /** What a placement produces: the reply, the canvas afterwards, and the token the
      cookie now carries, if one was issued. */
  datatype Outcome = Outcome(reply: Reply, world: World, token: Option<Claims>)

  /** The test the handler applies to `[x, y, v]`: a negative value, a value above the
      bound, or a NaN. The upper bounds are compared with `>`. */
  predicate OutOfRange(x: Num, y: Num, v: Num)
  {
    Less(x, 0) || Less(y, 0) || Greater(x, WIDTH) || Greater(y, HEIGHT) ||
    Less(v, 0) || Greater(v, |COLORS|) || x.NaN? || y.NaN? || v.NaN?
  }

  /** The identity checks pass: a body of three values, a token the field check accepts,
      an `X-User` header, a passing captcha, and a header equal to the token's subject. */
  predicate Authorized(req: Request)
  {
    req.body.Some? && |req.body.value| == 3 &&
    VerifyJwt(req.cookie, req.oracle).Accepted? &&
    TruthyString(req.xUser) && req.captcha.Passed? &&
    req.xUser == VerifyJwt(req.cookie, req.oracle).payload.sub
  }

  /** The checks of `PUT /place`, in the order the handler makes them. */
  function PlaceGate(req: Request, now: int): (g: Gate)
    ensures req.body.None? || |req.body.value| != 3 ==> g == Refuse(400)
    ensures !Authorized(req) ==> g.Refuse? && (g.code == 400 || g.code == 403)
    ensures req.body.Some? && |req.body.value| == 3 && !VerifyJwt(req.cookie, req.oracle).Accepted? ==>
      g == Refuse(403)
    ensures req.body.Some? && |req.body.value| == 3 && VerifyJwt(req.cookie, req.oracle).Accepted? ==>
      (!TruthyString(req.xUser) ==> g == Refuse(400)) &&
      (TruthyString(req.xUser) && req.captcha.Failed? ==> g == Refuse(403)) &&
      (TruthyString(req.xUser) && req.captcha.WrongHost? ==> g == Refuse(400)) &&
      (TruthyString(req.xUser) && req.captcha.Passed? && req.xUser != VerifyJwt(req.cookie, req.oracle).payload.sub ==>
        g == Refuse(403))
    // The captcha is checked before the header is compared with the subject.
    ensures (req.body.Some? && |req.body.value| == 3 && VerifyJwt(req.cookie, req.oracle).Accepted? &&
             TruthyString(req.xUser) && req.xUser != VerifyJwt(req.cookie, req.oracle).payload.sub &&
             req.captcha.WrongHost?) ==> g == Refuse(400)
    ensures Authorized(req) ==>
      var b := req.body.value;
      var lst := VerifyJwt(req.cookie, req.oracle).payload.lst;
      (OutOfRange(b[0], b[1], b[2]) ==> g == Refuse(400)) &&
      (!OutOfRange(b[0], b[1], b[2]) ==> (g == Refuse(429) <==> now - lst.value < TIMEOUT))
    ensures g.Go? <==>
      (Authorized(req) && !OutOfRange(req.body.value[0], req.body.value[1], req.body.value[2]) &&
       now - VerifyJwt(req.cookie, req.oracle).payload.lst.value >= TIMEOUT)
    ensures g.Go? ==>
      req.body.value == [Int(g.x), Int(g.y), Int(g.v)] &&
      g.x <= WIDTH && g.y <= HEIGHT && g.v <= |COLORS| &&
      g.claims == VerifyJwt(req.cookie, req.oracle).payload && WellFormed(g.claims)
  {
    if req.body.None? || |req.body.value| != 3 then Refuse(400)
    else match VerifyJwt(req.cookie, req.oracle)
      case Threw(_) => Refuse(403)
      case NoToken => Refuse(403)
      case Accepted(claims) =>
        if !TruthyString(req.xUser) then Refuse(400)
        else if req.captcha.Failed? then Refuse(403)
        else if req.captcha.WrongHost? then Refuse(400)
        else if req.xUser != claims.sub then Refuse(403)
        else
          var x, y, v := req.body.value[0], req.body.value[1], req.body.value[2];
          if OutOfRange(x, y, v) then Refuse(400)
          else if now - claims.lst.value < TIMEOUT then Refuse(429)
          else Go(x.value, y.value, v.value, claims)
  }

  /** The cooldown the reply announces: five times longer after a low captcha score. A
      score that is absent compares false. */
  function Cooldown(captcha: Captcha, threshold: real): (t: int)
    ensures t == TIMEOUT || t == 5 * TIMEOUT
    ensures t == 5 * TIMEOUT <==> captcha.Passed? && captcha.score.Some? && captcha.score.value < threshold
  {
    if captcha.Passed? && captcha.score.Some? && captcha.score.value < threshold then 5 * TIMEOUT
    else TIMEOUT
  }

  /** The token a successful placement signs: `lst` is now, `cnt` one more, then
      `applyJWT`. */
  function Stamped(claims: Claims, ip: string, now: int): (c: Claims)
    requires claims.cnt.Some?
    ensures c.lst == Some(now) && c.cnt == Some(claims.cnt.value + 1)
    ensures c.sub == claims.sub && c.jti == claims.jti && c.nme == claims.nme && c.iss == claims.iss
    ensures c.ip == Some(ip) && c.exp == None
  {
    Reissued(claims.(lst := Some(now), cnt := Some(claims.cnt.value + 1)), ip)
  }

  /** The end of a successful placement on the payload object: `lst` and `cnt` change in
      place, then `applyJWT` signs it. */
  method SignPlacement(claims: Claims, ip: string, now: int) returns (cookie: Claims)
    requires claims.cnt.Some?
    ensures cookie == Stamped(claims, ip, now)
  {
    var p := new Payload(claims);
    p.lst := Some(now);
    p.cnt := Some(p.cnt.value + 1);
    var _, signed := ApplyJwt(p, ip);
    cookie := signed.value;
  }

  /** `PUT /place` as a function of the canvas before the request. */
  function PlaceSpec(w: World, req: Request, threshold: real, now: int): (o: Outcome)
    requires WorldShaped(w)
    ensures WorldShaped(o.world)
  {
    Respond(w, PlaceGate(req, now), req.ip, req.captcha, threshold, now)
  }

  /** What the handler does with the result of its checks: refuse, or record the placement
      and, if every step went through, sign the token and announce the next time. */
  function Respond(w: World, g: Gate, ip: string, captcha: Captcha, threshold: real, now: int): (o: Outcome)
    requires WorldShaped(w)
    requires g.Go? ==> g.claims.cnt.Some?
    ensures WorldShaped(o.world)
  {
    match g
    case Refuse(code) => Outcome(Status(code), w, None)
    case Go(x, y, v, claims) =>
      var r := Recorded(w, x, y, v, ColorsPng(), now);
      if r.ok then Outcome(Next(now + Cooldown(captcha, threshold)), r.world, Some(Stamped(claims, ip, now)))
      else Outcome(Crash, r.world, None)
  }

  /** `PUT /place` on the running canvas. */
  method Place(canvas: Canvas, req: Request, threshold: real, now: int) returns (reply: Reply, token: Option<Claims>)
    requires canvas.Valid()
    modifies canvas, canvas.grid.Repr()
    ensures canvas.Valid()
    ensures Outcome(reply, canvas.Snapshot(), token) == PlaceSpec(old(canvas.Snapshot()), req, threshold, now)
  {
    var g := PlaceGate(req, now);
    if g.Refuse? {
      return Status(g.code), None;
    }
    var ok := canvas.Record(g.x, g.y, g.v, ColorsPng(), now);
    if !ok {
      return Crash, None;
    }
    var cookie := SignPlacement(g.claims, req.ip, now);
    reply := Next(now + Cooldown(req.captcha, threshold));
    token := Some(cookie);
  }

  /** Only a placement that is answered with `next` records anything: every other outcome
      leaves the snapshot times and the manifest as they were and issues no token. */
  lemma OnlySuccessRecords(w: World, req: Request, threshold: real, now: int)
    requires WorldShaped(w)
    ensures var o := PlaceSpec(w, req, threshold, now);
      (o.reply.Next? <==> o.token.Some?) &&
      (!o.reply.Next? ==> o.world.lastUpdates == w.lastUpdates && o.world.state == w.state) &&
      (o.reply.Status? ==> o.world == w) &&
      (o.reply.Next? ==> PlaceGate(req, now).Go?)
  {
  }

  /** A request that passes every check on a healthy canvas, with a time the trailer can
      hold and a pixel inside the canvas, is recorded (see `RecordedWrites`), answered with
      the next time and given a token that counts one more placement made now. */
  lemma PlacementRecorded(w: World, req: Request, threshold: real, now: int)
    requires Healthy(w, |COLORS|) && 0 <= now - EPOCH_BASE < TWO32
    requires PlaceGate(req, now).Go? && PlaceGate(req, now).x < WIDTH && PlaceGate(req, now).y < HEIGHT
    requires PlaceGate(req, now).v < |COLORS|
    ensures var g := PlaceGate(req, now);
      var o := PlaceSpec(w, req, threshold, now);
      o.reply == Next(now + Cooldown(req.captcha, threshold)) &&
      o.world == Recorded(w, g.x, g.y, g.v, ColorsPng(), now).world &&
      o.token == Some(Stamped(g.claims, req.ip, now)) &&
      o.token.value.lst == Some(now) && o.token.value.cnt == Some(g.claims.cnt.value + 1) &&
      o.token.value.sub == req.xUser &&
      Healthy(o.world, |COLORS|)
  {
    var g := PlaceGate(req, now);
    ColorsPngSpelledBack();
    RecordedWrites(w, g.x, g.y, g.v, ColorsPng(), now);
  }

  /** Finding, as written: the checks let `x == WIDTH` (or `y == HEIGHT`) through, and
      the lookup or the write throws: column `WIDTH / CHUNK_SIZE` does not exist, and
      row `HEIGHT / CHUNK_SIZE` of a column is `undefined`. Nothing is
      written and no reply is sent. */
  lemma EdgeCoordinateCrashes(w: World, req: Request, threshold: real, now: int)
    requires WorldShaped(w) && PlaceGate(req, now).Go?
    requires PlaceGate(req, now).x == WIDTH || PlaceGate(req, now).y == HEIGHT
    ensures PlaceSpec(w, req, threshold, now) == Outcome(Crash, w, None)
  {
    var g := PlaceGate(req, now);
    RecordedOutsideGrid(w, g.x, g.y, g.v, ColorsPng(), now);
  }

  /** A request the checks admit with `x == WIDTH`: a token for "u" placed at time 1, the
      same `X-User`, a passing captcha, the body `[256, 0, 0]`, a minute later. */
  lemma EdgeRequestAdmitted()
    ensures var claims := Claims(Some("u"), Some("j"), Some(1), Some(0), None, None, None, None);
      var req := Request(Some([Int(WIDTH), Int(0), Int(0)]), Some("t"), Decoded(claims), Some("u"), Passed(None), "ip");
      PlaceGate(req, 61) == Go(WIDTH, 0, 0, claims)
  {
  }

  /** Finding, as written: the checks let `v == COLORS.length` through. The byte and the
      time are written, then the snapshot finds no palette entry for it and throws: no
      reply, no new snapshot time, no token, and the chunk can no longer be rendered; later
      placements elsewhere in that chunk fail the same way. */
  lemma PaletteEndPoisonsChunk(w: World, req: Request, threshold: real, now: int)
    requires Healthy(w, |COLORS|) && 0 <= now - EPOCH_BASE < TWO32
    requires PlaceGate(req, now).Go? && PlaceGate(req, now).x < WIDTH && PlaceGate(req, now).y < HEIGHT
    requires PlaceGate(req, now).v == |COLORS|
    ensures var g := PlaceGate(req, now);
      var o := PlaceSpec(w, req, threshold, now);
      var (cX, cY, off) := Target(g.x, g.y);
      o.reply == Crash && o.token == None &&
      o.world.lastUpdates == w.lastUpdates && o.world.state == w.state &&
      o.world.chunks[cX][cY][off] == |COLORS| &&
      !Renderable(o.world.chunks[cX][cY], |COLORS|)
  {
    var g := PlaceGate(req, now);
    PaletteSpelling();
    ColorsPngSpelledBack();
    RecordedPastPalette(w, g.x, g.y, g.v, ColorsPng(), now);
  }

  /** A request with `v == COLORS.length` that the checks admit. */
  lemma PaletteEndRequestAdmitted()
    ensures var claims := Claims(Some("u"), Some("j"), Some(1), Some(0), None, None, None, None);
      var req := Request(Some([Int(0), Int(0), Int(|COLORS|)]), Some("t"), Decoded(claims), Some("u"), Passed(None), "ip");
      PlaceGate(req, 61) == Go(0, 0, |COLORS|, claims)
  {
  }

  /** The checks as evidently intended: a coordinate must lie inside the canvas and the
      colour must index the palette, so the bounds are exclusive. */
  function CorrectedGate(req: Request, now: int): (g: Gate)
    ensures g.Go? <==>
      (PlaceGate(req, now).Go? &&
       PlaceGate(req, now).x < WIDTH && PlaceGate(req, now).y < HEIGHT && PlaceGate(req, now).v < |COLORS|)
    ensures g.Go? ==> g == PlaceGate(req, now)
    ensures g.Refuse? && PlaceGate(req, now).Refuse? ==> g == PlaceGate(req, now)
  {
    match PlaceGate(req, now)
    case Go(x, y, v, claims) =>
      if x < WIDTH && y < HEIGHT && v < |COLORS| then Go(x, y, v, claims) else Refuse(400)
    case Refuse(code) => Refuse(code)
  }

  /** `PUT /place` with the corrected checks. */
  function CorrectedPlace(w: World, req: Request, threshold: real, now: int): (o: Outcome)
    requires WorldShaped(w)
    ensures WorldShaped(o.world)
  {
    Respond(w, CorrectedGate(req, now), req.ip, req.captcha, threshold, now)
  }

  /** With the corrected checks a healthy canvas never sees a thrown placement: every
      request is either refused, changing nothing, or recorded, and the canvas stays
      healthy. */
  lemma CorrectedPlaceKeepsHealthy(w: World, req: Request, threshold: real, now: int)
    requires Healthy(w, |COLORS|) && 0 <= now - EPOCH_BASE < TWO32
    ensures var o := CorrectedPlace(w, req, threshold, now);
      o.reply != Crash && Healthy(o.world, |COLORS|) &&
      (o.reply.Status? ==> o.world == w) &&
      (o.reply.Next? <==> CorrectedGate(req, now).Go?)
  {
    var g := CorrectedGate(req, now);
    if g.Go? {
      PlacementRecorded(w, req, threshold, now);
    }
  }

  /** The payload `/register` signs for `userId`, before `applyJWT`: placed one cooldown
      ago, no placements yet. */
  function Minted(userId: string, jti: string, name: string, ip: string, now: int): (c: Claims)
    ensures c.sub == Some(userId) && c.jti == Some(jti) && c.nme == Some(name)
    ensures c.lst == Some(now - TIMEOUT) && c.cnt == Some(0)
    ensures c.ip == Some(ip) && c.iss == Some(ISSUER) && c.exp == None
  {
    Claims(Some(userId), Some(jti), Some(now - TIMEOUT), Some(0), Some(name), Some(ip), Some(ISSUER), None)
  }

  /** What `/register` answers and the token it issues. */
  datatype Registration = Registration(reply: Reply, token: Option<Claims>)

  /** `POST /register`. A token that fails the checks is refused; a token that already has
      a name cannot register again; after the captcha, an unnamed token keeps its subject
      and a request without one gets `freshSub`. `freshJti` and `name` are the other
      values the handler draws. */
  function RegisterSpec(cookie: Option<string>, oracle: Verification, captcha: Captcha, ip: string, now: int,
                        freshSub: string, freshJti: string, name: string): (r: Registration)
    ensures r.reply.User? <==> r.token.Some?
    ensures VerifyJwt(cookie, oracle).Threw? ==> r == Registration(Status(403), None)
    ensures VerifyJwt(cookie, oracle).Accepted? && TruthyString(VerifyJwt(cookie, oracle).payload.nme) ==>
      r == Registration(Status(400), None)
    ensures !VerifyJwt(cookie, oracle).Threw? &&
            !(VerifyJwt(cookie, oracle).Accepted? && TruthyString(VerifyJwt(cookie, oracle).payload.nme)) ==>
      (captcha.Failed? ==> r == Registration(Status(403), None)) &&
      (captcha.WrongHost? ==> r == Registration(Status(400), None))
    ensures r.reply.User? <==>
      (!VerifyJwt(cookie, oracle).Threw? && captcha.Passed? &&
       !(VerifyJwt(cookie, oracle).Accepted? && TruthyString(VerifyJwt(cookie, oracle).payload.nme)))
    ensures r.reply.User? ==>
      r.reply.id == (if VerifyJwt(cookie, oracle).Accepted? then VerifyJwt(cookie, oracle).payload.sub.value else freshSub) &&
      r.token.value == Reissued(Minted(r.reply.id, freshJti, name, ip, now), ip)
  {
    var verified := VerifyJwt(cookie, oracle);
    if verified.Threw? then Registration(Status(403), None)
    else if verified.Accepted? && TruthyString(verified.payload.sub) && TruthyString(verified.payload.nme) then
      Registration(Status(400), None)
    else if captcha.Failed? then Registration(Status(403), None)
    else if captcha.WrongHost? then Registration(Status(400), None)
    else
      var userId := if verified.Accepted? && TruthyString(verified.payload.sub) then verified.payload.sub.value else freshSub;
      Registration(User(userId), Some(Reissued(Minted(userId, freshJti, name, ip, now), ip)))
  }

  /** `POST /register` with the payload object: the new payload replaces the old one and
      `applyJWT` signs it. */
  method Register(cookie: Option<string>, oracle: Verification, captcha: Captcha, ip: string, now: int,
                  freshSub: string, freshJti: string, name: string) returns (reply: Reply, token: Option<Claims>)
    ensures Registration(reply, token) == RegisterSpec(cookie, oracle, captcha, ip, now, freshSub, freshJti, name)
  {
    var verified := VerifyJwt(cookie, oracle);
    if verified.Threw? {
      return Status(403), None;
    }
    if verified.Accepted? && TruthyString(verified.payload.sub) && TruthyString(verified.payload.nme) {
      return Status(400), None;
    }
    if captcha.Failed? {
      return Status(403), None;
    }
    if captcha.WrongHost? {
      return Status(400), None;
    }
    var userId := if verified.Accepted? && TruthyString(verified.payload.sub) then verified.payload.sub.value else freshSub;
    var p := new Payload(Minted(userId, freshJti, name, ip, now));
    var _, cookieOut := ApplyJwt(p, ip);
    reply := User(userId);
    token := cookieOut;
  }

  /** A registered token passes the field check, has made no placements, and is already out
      of its cooldown: a placement request carrying it, with the returned user id in
      `X-User`, a passing captcha and an in-range body, is let through at once. */
  lemma RegisteredUserCanPlace(cookie: Option<string>, oracle: Verification, captcha: Captcha, ip: string, now: int,
                               freshSub: string, freshJti: string, name: string, req: Request, later: int)
    requires freshSub != "" && freshJti != "" && now != TIMEOUT
    requires RegisterSpec(cookie, oracle, captcha, ip, now, freshSub, freshJti, name).reply.User?
    requires var r := RegisterSpec(cookie, oracle, captcha, ip, now, freshSub, freshJti, name);
      TruthyString(req.cookie) && req.oracle == Decoded(r.token.value) &&
      req.xUser == Some(r.reply.id) && req.captcha.Passed? &&
      req.body.Some? && |req.body.value| == 3 &&
      !OutOfRange(req.body.value[0], req.body.value[1], req.body.value[2])
    requires later >= now
    ensures var r := RegisterSpec(cookie, oracle, captcha, ip, now, freshSub, freshJti, name);
      WellFormed(r.token.value) && r.token.value.cnt == Some(0) &&
      PlaceGate(req, later).Go? && PlaceGate(req, later).claims == r.token.value
  {
  }

  /** Registering an unnamed token keeps its subject, so the placements it made stay with
      the same user id. */
  lemma RegistrationKeepsSubject(cookie: Option<string>, claims: Claims, score: Option<real>, ip: string, now: int,
                                 freshSub: string, freshJti: string, name: string)
    requires TruthyString(cookie) && WellFormed(claims) && !TruthyString(claims.nme)
    ensures RegisterSpec(cookie, Decoded(claims), Passed(score), ip, now, freshSub, freshJti, name).reply ==
      User(claims.sub.value)
  {
  }

  /** `GET /info/:x/:y`: both path segments go through `parseInt`; a NaN or a value outside
      0..WIDTH (0..HEIGHT) is refused with 400, the upper bounds included. */
  function InfoCoordinates(xs: string, ys: string): (r: Option<(int, int)>)
    ensures r.Some? <==>
      (ParseInt(xs).Int? && ParseInt(ys).Int? &&
       0 <= ParseInt(xs).value <= WIDTH && 0 <= ParseInt(ys).value <= HEIGHT)
    ensures r.Some? ==> r.value == (ParseInt(xs).value, ParseInt(ys).value)
  {
    var x, y := ParseInt(xs), ParseInt(ys);
    if Less(x, 0) || Less(y, 0) || Greater(x, WIDTH) || Greater(y, HEIGHT) || x.NaN? || y.NaN? then None
    else Some((x.value, y.value))
  }

  /** A coordinate written in decimal is looked up as itself, up to and including the
      width and height. */
  lemma InfoOfDecimal(x: int, y: int)
    requires 0 <= x <= WIDTH && 0 <= y <= HEIGHT
    ensures InfoCoordinates(Decimal(x), Decimal(y)) == Some((x, y))
  {
    ParseIntOfDecimal(x, []);
    ParseIntOfDecimal(y, []);
    assert Decimal(x) + [] == Decimal(x);
    assert Decimal(y) + [] == Decimal(y);
  }
}
