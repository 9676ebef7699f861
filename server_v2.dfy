/** The handlers of server/server.ts, the server before server/src/server.ts: the same
    2 x 2 canvas and write path, a 16-colour palette written in mixed case, no captcha, no
    NaN test in `/place`, and its own `applyJWT`, which mints a token when there is none
    and does not record the address. */
module ServerV2 {
  import opened Js
  import opened Bytes
  import opened Util
  import opened Data
  import opened Jwt
  import opened Chunks
  import opened Store
  import opened Server

  /** The palette of server/server.ts. */
  const COLORS_16: seq<string> := [
    "#ffffff", "#000000", "#0000AA", "#00AA00", "#00AAAA", "#AA0000", "#AA00AA", "#FFAA00",
    "#AAAAAA", "#555555", "#5555FF", "#55FF55", "#55FFFF", "#FF5555", "#FF55FF", "#FFFF55"
  ]

  /** The RGB table server/server.ts starts with, before the loop overwrites it. */
  const COLORS_PNG_16: seq<Rgb> := [
    Rgb(255, 255, 255), Rgb(0, 0, 0), Rgb(0, 0, 170), Rgb(0, 170, 0),
    Rgb(0, 170, 170), Rgb(170, 0, 0), Rgb(170, 0, 170), Rgb(255, 170, 0),
    Rgb(170, 170, 170), Rgb(85, 85, 85), Rgb(85, 85, 255), Rgb(85, 255, 85),
    Rgb(85, 255, 255), Rgb(255, 85, 85), Rgb(255, 85, 255), Rgb(255, 255, 85)
  ]

  /** The loop `COLORS_PNG[c] = hexToRgb(COLORS[c])` over an existing table: entries below
      `|colors|` are replaced, later ones kept, and the table grows if it was shorter. */
  method OverwriteColorsPng(table: seq<Rgb>, colors: seq<string>) returns (t: seq<Rgb>)
    requires ParsablePalette(colors)
    ensures |t| == if |table| < |colors| then |colors| else |table|
    ensures forall c :: 0 <= c < |colors| ==> t[c] == HexToRgb(colors[c])
    ensures forall c :: |colors| <= c < |table| ==> t[c] == table[c]
  {
    t := table;
    var c := 0;
    while c < |colors|
      invariant 0 <= c <= |colors|
      invariant |t| == if |table| < c then c else |table|
      invariant forall k :: 0 <= k < c ==> t[k] == HexToRgb(colors[k])
      invariant forall k :: c <= k < |table| ==> t[k] == table[k]
    {
      if c < |t| {
        t := t[c := HexToRgb(colors[c])];
      } else {
        t := t + [HexToRgb(colors[c])];
      }
      c := c + 1;
    }
  }

  /** Every palette string parses, and parsing gives the written table back: the loop
      leaves the table as it was written. */
  lemma TableMatchesPalette()
    ensures ParsablePalette(COLORS_16) && |COLORS_16| == |COLORS_PNG_16| == 16
    ensures forall c :: 0 <= c < 16 ==> HexToRgb(COLORS_16[c]) == COLORS_PNG_16[c]
  {
    forall c | 0 <= c < 16 ensures IsHexColor(COLORS_16[c]) {
      assert AllHexDigits(COLORS_16[c][1..]);
    }
    forall c | 0 <= c < 16 ensures HexToRgb(COLORS_16[c]) == COLORS_PNG_16[c] {
      var d := COLORS_16[c][1..];
      assert |d| == 6;
    }
  }

  /** Whatever the loop returns for this palette and this table is the table itself. */
  lemma OverwriteKeepsTable(t: seq<Rgb>)
    requires |t| == 16 && forall c :: 0 <= c < 16 ==> t[c] == HexToRgb(COLORS_16[c])
    ensures t == COLORS_PNG_16
  {
    TableMatchesPalette();
  }

  /** The parts of a `PUT /place` request this server looks at. */
  datatype RequestV2 = RequestV2(
    body: Option<seq<Num>>,
    cookie: Option<string>,
    oracle: Verification,
    xUser: Option<string>)

  /** The checks end with the raw values: they may still be NaN. */
  datatype GateV2 = RefuseV2(code: int) | GoV2(x: Num, y: Num, v: Num, claims: Claims)

  /** The range test of this server: the same bounds, compared with `>`, and no NaN test. */
  predicate OutOfRangeV2(x: Num, y: Num, v: Num)
  {
    Less(x, 0) || Less(y, 0) || Greater(x, WIDTH) || Greater(y, HEIGHT) || Less(v, 0) || Greater(v, |COLORS_16|)
  }

  /** A body of three values, a token the field check accepts, an `X-User` header equal to
      the token's subject. */
  predicate AuthorizedV2(req: RequestV2)
  {
    req.body.Some? && |req.body.value| == 3 &&
    VerifyJwt(req.cookie, req.oracle).Accepted? &&
    TruthyString(req.xUser) && req.xUser == VerifyJwt(req.cookie, req.oracle).payload.sub
  }

  /** The checks of `PUT /place` in server/server.ts, in order. */
  function PlaceGateV2(req: RequestV2, now: int): (g: GateV2)
    ensures req.body.None? || |req.body.value| != 3 ==> g == RefuseV2(400)
    ensures !AuthorizedV2(req) ==> g.RefuseV2? && (g.code == 400 || g.code == 403)
    ensures req.body.Some? && |req.body.value| == 3 && !VerifyJwt(req.cookie, req.oracle).Accepted? ==>
      g == RefuseV2(403)
    ensures req.body.Some? && |req.body.value| == 3 && VerifyJwt(req.cookie, req.oracle).Accepted? ==>
      (!TruthyString(req.xUser) ==> g == RefuseV2(400)) &&
      (TruthyString(req.xUser) && req.xUser != VerifyJwt(req.cookie, req.oracle).payload.sub ==> g == RefuseV2(403))
    ensures AuthorizedV2(req) ==>
      var b := req.body.value;
      var lst := VerifyJwt(req.cookie, req.oracle).payload.lst;
      (OutOfRangeV2(b[0], b[1], b[2]) ==> g == RefuseV2(400)) &&
      (!OutOfRangeV2(b[0], b[1], b[2]) ==> (g == RefuseV2(429) <==> now - lst.value < TIMEOUT))
    ensures g.GoV2? <==>
      (AuthorizedV2(req) && !OutOfRangeV2(req.body.value[0], req.body.value[1], req.body.value[2]) &&
       now - VerifyJwt(req.cookie, req.oracle).payload.lst.value >= TIMEOUT)
    ensures g.GoV2? ==>
      req.body.value == [g.x, g.y, g.v] && !OutOfRangeV2(g.x, g.y, g.v) &&
      g.claims == VerifyJwt(req.cookie, req.oracle).payload && WellFormed(g.claims)
  {
    if req.body.None? || |req.body.value| != 3 then RefuseV2(400)
    else match VerifyJwt(req.cookie, req.oracle)
      case Threw(_) => RefuseV2(403)
      case NoToken => RefuseV2(403)
      case Accepted(claims) =>
        if !TruthyString(req.xUser) then RefuseV2(400)
        else if req.xUser != claims.sub then RefuseV2(403)
        else
          var x, y, v := req.body.value[0], req.body.value[1], req.body.value[2];
          if OutOfRangeV2(x, y, v) then RefuseV2(400)
          else if now - claims.lst.value < TIMEOUT then RefuseV2(429)
          else GoV2(x, y, v, claims)
  }

  /** The token after a placement: `lst` now, `cnt` one more, `exp` deleted; the address
      is not touched. */
  function StampedV2(claims: Claims, now: int): (c: Claims)
    requires claims.cnt.Some?
    ensures c.lst == Some(now) && c.cnt == Some(claims.cnt.value + 1) && c.exp == None
    ensures c.sub == claims.sub && c.jti == claims.jti && c.ip == claims.ip && c.iss == claims.iss && c.nme == claims.nme
  {
    claims.(lst := Some(now), cnt := Some(claims.cnt.value + 1), exp := None)
  }

  /** `PUT /place` of server/server.ts as a function of the canvas before the request. A
      NaN coordinate gives no chunk, so the lookup or the write throws; a NaN colour passes Node's range
      test and is stored as 0. */
  function PlaceSpecV2(w: World, req: RequestV2, now: int): (o: Outcome)
    requires WorldShaped(w)
    ensures WorldShaped(o.world)
  {
    match PlaceGateV2(req, now)
    case RefuseV2(code) => Outcome(Status(code), w, None)
    case GoV2(x, y, v, claims) =>
      if x.NaN? || y.NaN? then Outcome(Crash, w, None)
      else
        var r := Recorded(w, x.value, y.value, if v.NaN? then 0 else v.value, COLORS_PNG_16, now);
        if r.ok then Outcome(Next(now + TIMEOUT), r.world, Some(StampedV2(claims, now)))
        else Outcome(Crash, r.world, None)
  }

  /** `PUT /place` of server/server.ts on the running canvas. */
  method PlaceV2(canvas: Canvas, req: RequestV2, now: int)
    returns (reply: Reply, token: Option<Claims>)
    requires canvas.Valid()
    modifies canvas, canvas.grid.Repr()
    ensures canvas.Valid()
    ensures Outcome(reply, canvas.Snapshot(), token) == PlaceSpecV2(old(canvas.Snapshot()), req, now)
  {
    var g := PlaceGateV2(req, now);
    if g.RefuseV2? {
      return Status(g.code), None;
    }
    if g.x.NaN? || g.y.NaN? {
      return Crash, None;
    }
    var ok := canvas.Record(g.x.value, g.y.value, if g.v.NaN? then 0 else g.v.value, COLORS_PNG_16, now);
    if !ok {
      return Crash, None;
    }
    var cookie := SignPlacementV2(g.claims, now);
    reply := Next(now + TIMEOUT);
    token := Some(cookie);
  }

  /** The end of a successful placement on the payload object: `lst` and `cnt` change in
      place, then `applyJWT` signs it. */
  method SignPlacementV2(claims: Claims, now: int) returns (cookie: Claims)
    requires claims.cnt.Some?
    ensures cookie == StampedV2(claims, now)
  {
    var p := new Payload(claims);
    p.lst := Some(now);
    p.cnt := Some(p.cnt.value + 1);
    var _, signed := ApplyJwtV2(p, "", now, "", "");
    cookie := signed;
  }

  /** The payload this `applyJWT` mints for a request without one: a fresh subject, placed
      one cooldown ago, no placements yet. */
  function MintedV2(sub: string, jti: string, ip: string, now: int): (c: Claims)
    ensures c.sub == Some(sub) && c.jti == Some(jti) && c.lst == Some(now - TIMEOUT) && c.cnt == Some(0)
    ensures c.nme == None && c.ip == Some(ip) && c.iss == Some(ISSUER) && c.exp == None
  {
    Claims(Some(sub), Some(jti), Some(now - TIMEOUT), Some(0), None, Some(ip), Some(ISSUER), None)
  }

  /** `applyJWT` of server/server.ts: with no payload it mints one; either way it deletes
      `exp`, signs the payload as it now is and returns its subject. */
  method ApplyJwtV2(p: Payload?, reqIp: string, now: int, freshSub: string, freshJti: string)
    returns (userId: Option<string>, cookie: Claims)
    modifies p
    ensures p == null ==> userId == Some(freshSub) && cookie == MintedV2(freshSub, freshJti, reqIp, now)
    ensures p != null ==> p.Snapshot() == old(p.Snapshot()).(exp := None)
    ensures p != null ==> userId == old(p.sub) && cookie == p.Snapshot()
  {
    var q := p;
    if q == null {
      q := new Payload(MintedV2(freshSub, freshJti, reqIp, now));
    }
    q.exp := None;
    userId := q.sub;
    cookie := q.Snapshot();
  }

  /** A minted token passes the field check and is already out of its cooldown. */
  lemma MintedTokenUsable(sub: string, jti: string, ip: string, now: int, later: int)
    requires sub != "" && jti != "" && now != TIMEOUT && later >= now
    ensures WellFormed(MintedV2(sub, jti, ip, now))
    ensures later - MintedV2(sub, jti, ip, now).lst.value >= TIMEOUT
  {
  }

  /** A visitor whose token was just minted can place at once: presenting it with its own
      subject and an in-range pixel passes every check. */
  lemma MintedUserCanPlace(sub: string, jti: string, ip: string, minted: int, now: int, token: string, x: int, y: int, v: int)
    requires sub != "" && jti != "" && token != "" && minted != TIMEOUT && now >= minted
    requires 0 <= x <= WIDTH && 0 <= y <= HEIGHT && 0 <= v <= 16
    ensures var req := RequestV2(Some([Int(x), Int(y), Int(v)]), Some(token), Decoded(MintedV2(sub, jti, ip, minted)), Some(sub));
      PlaceGateV2(req, now) == GoV2(Int(x), Int(y), Int(v), MintedV2(sub, jti, ip, minted))
  {
    MintedTokenUsable(sub, jti, ip, minted, now);
  }

  /** A request that passes every check on a healthy canvas with a pixel inside it and a
      palette colour is recorded (see `RecordedWrites`), answered with the next time, and
      gets a token that counts one more placement made now. */
  lemma PlacementRecordedV2(w: World, req: RequestV2, now: int)
    requires Healthy(w, 16) && 0 <= now - EPOCH_BASE < TWO32
    requires PlaceGateV2(req, now).GoV2?
    requires var g := PlaceGateV2(req, now);
      g.x.Int? && g.y.Int? && g.v.Int? && g.x.value < WIDTH && g.y.value < HEIGHT && g.v.value < 16
    ensures var g := PlaceGateV2(req, now);
      var o := PlaceSpecV2(w, req, now);
      o.reply == Next(now + TIMEOUT) &&
      o.world == Recorded(w, g.x.value, g.y.value, g.v.value, COLORS_PNG_16, now).world &&
      o.token == Some(StampedV2(g.claims, now)) && o.token.value.sub == req.xUser &&
      Healthy(o.world, 16)
  {
    var g := PlaceGateV2(req, now);
    RecordedWrites(w, g.x.value, g.y.value, g.v.value, COLORS_PNG_16, now);
  }

  /** A NaN colour is written as 0, which is white, and the placement goes through. */
  lemma NaNColourPaintsWhite(w: World, req: RequestV2, now: int)
    requires Healthy(w, 16) && 0 <= now - EPOCH_BASE < TWO32
    requires PlaceGateV2(req, now).GoV2?
    requires var g := PlaceGateV2(req, now);
      g.x.Int? && g.y.Int? && g.v.NaN? && g.x.value < WIDTH && g.y.value < HEIGHT
    ensures var g := PlaceGateV2(req, now);
      var o := PlaceSpecV2(w, req, now);
      var (cX, cY, off) := Target(g.x.value, g.y.value);
      o.reply == Next(now + TIMEOUT) && o.world.chunks[cX][cY][off] == 0 &&
      COLORS_PNG_16[0] == Rgb(255, 255, 255)
  {
    var g := PlaceGateV2(req, now);
    RecordedWrites(w, g.x.value, g.y.value, 0, COLORS_PNG_16, now);
  }

  /** A NaN coordinate gets through the checks, and the chunk lookup or the byte write
      then throws before anything is written. */
  lemma NaNCoordinateCrashes(w: World, req: RequestV2, now: int)
    requires WorldShaped(w) && PlaceGateV2(req, now).GoV2?
    requires PlaceGateV2(req, now).x.NaN? || PlaceGateV2(req, now).y.NaN?
    ensures PlaceSpecV2(w, req, now) == Outcome(Crash, w, None)
  {
  }

  /** Such a request: a body like `["a", 0, 0]`, whose first value `isNaN` reports as NaN,
      with a valid token a minute after its last placement. */
  lemma NaNRequestAdmitted()
    ensures var claims := Claims(Some("u"), Some("j"), Some(1), Some(0), None, None, None, None);
      var req := RequestV2(Some([NaN, Int(0), Int(0)]), Some("t"), Decoded(claims), Some("u"));
      PlaceGateV2(req, 61) == GoV2(NaN, Int(0), Int(0), claims)
  {
  }

  /** As in the later server, `x == WIDTH` passes the checks and the lookup throws, and
      `v == 16` is written before the snapshot throws, leaving the chunk unrenderable. */
  lemma EdgeCasesV2(w: World, req: RequestV2, now: int)
    requires Healthy(w, 16) && 0 <= now - EPOCH_BASE < TWO32 && PlaceGateV2(req, now).GoV2?
    requires var g := PlaceGateV2(req, now); g.x.Int? && g.y.Int? && g.v.Int?
    ensures var g := PlaceGateV2(req, now);
      g.x.value == WIDTH ==> PlaceSpecV2(w, req, now) == Outcome(Crash, w, None)
    ensures var g := PlaceGateV2(req, now);
      var o := PlaceSpecV2(w, req, now);
      g.x.value < WIDTH && g.y.value < HEIGHT && g.v.value == 16 ==>
        o.reply == Crash && o.world.lastUpdates == w.lastUpdates &&
        !Renderable(o.world.chunks[Target(g.x.value, g.y.value).0][Target(g.x.value, g.y.value).1], 16)
  {
    var g := PlaceGateV2(req, now);
    if g.x.value == WIDTH {
      RecordedOutsideGrid(w, g.x.value, g.y.value, g.v.value, COLORS_PNG_16, now);
    }
    if g.x.value < WIDTH && g.y.value < HEIGHT && g.v.value == 16 {
      RecordedPastPalette(w, g.x.value, g.y.value, g.v.value, COLORS_PNG_16, now);
    }
  }

  /** The checks as evidently intended, as the later server writes them: the values must be
      numbers, a coordinate must lie inside the canvas and the colour must index the
      palette. */
  function CorrectedGateV2(req: RequestV2, now: int): (g: GateV2)
    ensures g.GoV2? <==>
      (PlaceGateV2(req, now).GoV2? &&
       var p := PlaceGateV2(req, now);
       p.x.Int? && p.y.Int? && p.v.Int? && p.x.value < WIDTH && p.y.value < HEIGHT && p.v.value < 16)
    ensures g.GoV2? ==> g == PlaceGateV2(req, now)
    ensures g.RefuseV2? && PlaceGateV2(req, now).RefuseV2? ==> g == PlaceGateV2(req, now)
  {
    match PlaceGateV2(req, now)
    case GoV2(x, y, v, claims) =>
      if x.Int? && y.Int? && v.Int? && x.value < WIDTH && y.value < HEIGHT && v.value < 16
      then GoV2(x, y, v, claims) else RefuseV2(400)
    case RefuseV2(code) => RefuseV2(code)
  }

  /** `PUT /place` of server/server.ts with the corrected checks. */
  function CorrectedPlaceV2(w: World, req: RequestV2, now: int): (o: Outcome)
    requires WorldShaped(w)
    ensures WorldShaped(o.world)
  {
    match CorrectedGateV2(req, now)
    case RefuseV2(code) => Outcome(Status(code), w, None)
    case GoV2(x, y, v, claims) =>
      var r := Recorded(w, x.value, y.value, v.value, COLORS_PNG_16, now);
      if r.ok then Outcome(Next(now + TIMEOUT), r.world, Some(StampedV2(claims, now)))
      else Outcome(Crash, r.world, None)
  }

  /** With the corrected checks nothing throws on a healthy canvas: a request is refused
      and changes nothing, or it is recorded as `PlaceSpecV2` records it, and the canvas
      stays healthy. */
  lemma CorrectedPlaceV2KeepsHealthy(w: World, req: RequestV2, now: int)
    requires Healthy(w, 16) && 0 <= now - EPOCH_BASE < TWO32
    ensures var o := CorrectedPlaceV2(w, req, now);
      o.reply != Crash && Healthy(o.world, 16) &&
      (o.reply.Status? ==> o.world == w) &&
      (o.reply.Next? <==> CorrectedGateV2(req, now).GoV2?) &&
      (o.reply.Next? ==> o == PlaceSpecV2(w, req, now))
  {
    if CorrectedGateV2(req, now).GoV2? {
      PlacementRecordedV2(w, req, now);
    }
  }
}
