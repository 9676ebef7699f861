# arr.place canvas state engine, in Dafny

arr.place is a shared pixel canvas. A server keeps the canvas as a grid of square chunks.
Each chunk is a byte buffer of `CHUNK_SIZE * CHUNK_SIZE` palette indices, stored row-major.
In the later servers the buffer also ends in a 4-byte little-endian modification time,
counted from `EPOCH_BASE`.

A signed-in user sends `PUT /place` with `[x, y, colour]`. The handler:
1. runs a chain of checks: body shape, token, `X-User` header, captcha, ranges, cooldown;
2. writes the pixel and the time into the chunk;
3. renders the chunk to a PNG snapshot through the RGB palette;
4. rebuilds the manifest of snapshot names `c_<time>_<x>-<y>.png`;
5. re-signs the token with `lst` (the time of the last placement) and `cnt` (the count of placements).

Clients poll the manifest, parse the names back into chunk coordinates, and gate their own
placements on the `next` time the server returned. A name the parse cannot split ends a
poll through its `catch`: that name and those admitted before it stay in the list, and the
list is not trimmed. The first client instead reads the raw chunk bytes and paints them
itself.

The repository holds three generations of the server:
- `server.ts`: 8 x 8 chunks, no trailer, no tokens;
- `server/server.ts`: 2 x 2 chunks, trailer, tokens;
- `server/src/server.ts`: adds the captcha, registration and NaN checks.

It also holds the three matching clients. The model has one module per source file or per
shared concern:

| module | file | models |
|---|---|---|
| `Js` | js.dfy | JavaScript values the handlers see: numbers that may be NaN, `parseInt`, `String.split`, decimal rendering, truthiness |
| `Bytes` | bytes.dfy | Node `Buffer.writeUInt8`, `writeUint32LE` and `readUint32LE` on byte arrays, with their range errors |
| `Util` | util.dfy | server/src/util.ts: UUID dash stripping and re-insertion, `hexToRgb`, `validateOrigin` |
| `Data` | data.dfy | server/data.ts: geometry, epoch, cooldown, the 32-colour palette and the `COLORS_PNG` loop |
| `Jwt` | jwt.dfy | server/src/jwt.ts: the payload field check of `verifyJWT`, and `applyJWT` re-issuing a payload object in place |
| `Chunks` | chunks.dfy | chunk buffers: pixel offsets, the pixel-and-trailer write, the RGB raster `savePNG` fills, and the grid of buffers as a class |
| `Store` | store.dfy | the canvas state shared by both later servers (`CHUNKS`, `LAST_UPDATES`, `state`) as a class, with a value-level specification of a placement |
| `Server` | server.dfy | server/src/server.ts: `PUT /place`, `POST /register`, the `/info/:x/:y` check |
| `ServerV2` | server_v2.dfy | server/server.ts: its palette loop, `PUT /place` and minting `applyJWT` |
| `ServerV1` | server_v1.dfy | server.ts: the 8 x 8 grid, `GET /chunk/:x/:y` and `PUT /place` |
| `Client` | client.dfy | client/src/script.ts and client/script.ts: manifest name parsing, the `lastState` poll list, `pad`, the timer, `timeSince`, the placement gate |
| `ClientV1` | client_v1.dfy | script.ts: `loadChunk` decoding, the `init` chunk loop, the placement gate |

Three conventions run through the model:
- Time is an input. A handler reads the clock once, as `now` in seconds.
- The token library and the captcha service are oracles. `Verification` carries what
  `JWT.verify` would deliver, and `Captcha` what `verifyCaptcha` reports.
- A value of a request body is `Int(n)` or `NaN`. `NaN` stands for any value `isNaN`
  reports as NaN, such as `"a"` or `{}`; JSON itself cannot carry a NaN.

Where a handler's code and its evident intent disagree, the model follows the code and
proves the consequence. See "## Findings".

## Model

| member | source | states |
|---|---|---|
| Js.ParseIntOfDecimal | client/src/script.ts:178-179 | `parseInt` of a decimal rendering followed by text that starts with neither a digit nor an 'x' gives the number back |
| Js.SplitAtSeparator | client/src/script.ts:176-177 | `split` at the first separator gives the piece before it followed by the split of the rest |
| Js.SplitWithoutSeparator | client/src/script.ts:176-177 | a string without the separator splits into itself alone |
| Bytes.Le32RoundTrip | server/src/server.ts:403 | encoding a 32-bit time little-endian and decoding it gives it back |
| Bytes.Le32Bytes | server/src/server.ts:163 | decoding any four bytes and encoding the value gives the same bytes |
| Bytes.ReadAfterWrite | server/src/server.ts:161-164 | reading 32 bits at the offset where they were written gives the stored value, whatever surrounds them |
| Bytes.WriteUInt8 | server/src/server.ts:402 | the write succeeds iff the value is NaN or in 0..255 and the offset is inside the buffer; on success exactly that byte changes (NaN stored as 0), otherwise nothing changes |
| Bytes.WriteUInt32LE | server/src/server.ts:403 | the write succeeds iff the value fits 32 bits and four bytes fit at the offset; on success exactly those four bytes become its little-endian encoding, otherwise nothing changes |
| Util.StripUuid | server/src/util.ts:1-3 | the result contains no '-' and is no longer than the input |
| Util.StripConcat | server/src/util.ts:1-3 | stripping distributes over concatenation, so the kept characters keep their order |
| Util.StripDashFree | server/src/util.ts:1-3 | a string without dashes is returned unchanged |
| Util.StripIdempotent | server/src/util.ts:1-3 | stripping twice equals stripping once |
| Util.AddDashesLong | server/src/util.ts:5-6 | an input of 36 or more characters is returned unchanged |
| Util.StripAfterAddDashes | server/src/util.ts:5-8 | for a dash-free string shorter than 36, stripping the dashed form gives the string back |
| Util.AddDashes32 | server/src/util.ts:7 | a dash-free 32-character string becomes the canonical form, with dashes exactly at 8, 13, 18 and 23 around its five slices |
| Util.AddDashesAfterStrip | server/src/util.ts:1-8 | re-dashing a stripped canonical UUID gives the UUID back |
| Util.HexToRgbOfRgbToHex | server/src/util.ts:10-17 | every colour's lower-case `#rrggbb` spelling is accepted by the pattern and parses back to the colour |
| Util.RgbToHexOfHexToRgb | server/src/util.ts:10-17 | a lower-case `#rrggbb` string is spelled back exactly from the colour it parses to |
| Util.SearchMatchesPattern | server/src/util.ts:22 | the unanchored search finds a match iff "https://", a non-empty run of [a-z0-9] and ".arr-place.pages.dev" occur in sequence somewhere in the string |
| Util.ValidateOrigin | server/src/util.ts:19-26 | the result is the input or nothing, and it is the input iff the input is a listed origin or contains the preview-origin pattern |
| Util.ValidateOriginUnanchored | server/src/util.ts:22 | a preview origin embedded between arbitrary text is still accepted |
| Data.PaletteSpelling | server/data.ts:34-67 | the palette has 32 entries, each '#' and six lower-case hexadecimal digits |
| Data.PaletteParsable | server/data.ts:34-67 | every palette entry is accepted by `hexToRgb` |
| Data.BuildColorsPng | server/data.ts:69-75 | after the loop the table has one entry per palette colour, entry c being `hexToRgb(COLORS[c])` |
| Data.ColorsPngSpelledBack | server/data.ts:69-75 | the table has 32 entries and each spells back exactly its palette string, so nothing is lost in the conversion |
| Data.ZeroIsWhite | server/data.ts:34-75 | index 0, which a zero-filled chunk holds, is white |
| Jwt.VerifyJwt | server/src/jwt.ts:16-49 | no cookie gives no payload without error; a refusal of the token library propagates as a throw with no status; a verified payload lacking `sub`, `jti` or a truthy `lst`, or lacking the `cnt` key, throws with status 400; otherwise the payload is returned as delivered, whatever the request address |
| Jwt.RefusalPropagates | server/src/jwt.ts:25-36 | with a cookie, a refusal by the token library is a throw, never a fresh identity |
| Jwt.ZeroFields | server/src/jwt.ts:37-40 | `lst = 0` is rejected, `cnt = 0` is accepted, a missing `cnt` is rejected |
| Jwt.Reissued | server/src/jwt.ts:73-75 | the re-issued payload carries the request address and no `exp`; `sub`, `jti`, `lst`, `cnt`, `nme`, `iss` are unchanged |
| Jwt.ReissuePreservesWellFormed | server/src/jwt.ts:73-75 | re-issuing keeps a payload acceptable to the field check, and a rejected one rejected |
| Jwt.ReissueIdempotent | server/src/jwt.ts:73-75 | re-issuing twice for the same address equals re-issuing once |
| Jwt.ApplyJwt | server/src/jwt.ts:51-85 | no payload: nothing is returned and no cookie is set; a payload object is changed in place to its re-issued form, signed into the cookie, and its unchanged subject is returned |
| Chunks.PixelOffsetBijective | server/src/server.ts:396-402 | offset `iY * S + iX` is a bijection between in-chunk pixels and 0..S*S-1 |
| Chunks.PlacedReadsBack | server/src/server.ts:402-403 | after the pixel-and-trailer write the pixel reads back the colour and the trailer the stamp; every other byte is unchanged |
| Chunks.RasterOffset | server/src/server.ts:93 | the raster offset `y * 3S + 3x + k` lies inside the 3*S*S raster |
| Chunks.RasterOffsetBijective | server/src/server.ts:89-97 | every pixel component has its own raster offset, and every raster offset belongs to one |
| Chunks.RenderChunk | server/src/server.ts:89-99 | the nested loops succeed iff every pixel of the chunk indexes the palette, and then every raster byte `y * 3S + 3x + k` is component k of the palette entry of pixel `y * S + x` |
| Chunks.ChunkGrid.constructor | server.ts:39-45 | a cols x rows grid of fresh zero-filled buffers of the given length |
| Chunks.ChunkGrid.WritePixel | server/src/server.ts:402-403 | the two Node writes on one chunk: both succeed iff the value, offset and stamp pass Node's checks; a failure of the second keeps the pixel written; no other chunk changes |
| Chunks.ChunkGrid.Replace | server/src/server.ts:160 | the cell holds a fresh buffer with the loaded bytes; every other cell keeps its buffer |
| Store.Manifest | server/src/server.ts:106-113 | exactly COLS * ROWS names in x-major order, entry `x * ROWS + y` being `c_<LAST_UPDATES[x][y]>_<x>-<y>.png` |
| Store.ManifestIndex | server/src/server.ts:108-110 | the slot of chunk (x, y) in the manifest maps back to (x, y) |
| Store.LoadRestoresPlacementTime | server/src/server.ts:161-164 | loading a chunk whose trailer was written at time `now` sets its snapshot time back to `now` |
| Store.ShortLoadKeepsTime | server/src/server.ts:161-168 | a loaded buffer too short for the trailer leaves the snapshot time as it was |
| Store.ChunkCoordinates | server/src/server.ts:390-397 | for x >= 0 the in-chunk coordinate `x - (x div S) * S` is in 0..S-1, and x is on the canvas iff its chunk column exists |
| Store.PlaceOffset | server/src/server.ts:396-402 | the byte a placement writes lies inside the pixel area |
| Store.PlaceOffsetInjective | server/src/server.ts:390-402 | two canvas pixels in the same chunk never share a byte |
| Store.RecordedPlaced | server/src/server.ts:390-420 | when every step goes through, the chunk gets the pixel-and-trailer write, the snapshot time is `now` and the manifest is rebuilt from the new times |
| Store.FreshCanvasHealthy | server/src/server.ts:140-145 | the canvas at start-up, zero-filled with the load time everywhere, can take placements and be rendered |
| Store.Target | server/src/server.ts:390-397 | a pixel on the canvas maps to an existing chunk and an offset inside its pixel area |
| Store.RecordedWrites | server/src/server.ts:390-420 | on a healthy canvas a placement on the canvas with a palette colour goes through: the pixel holds the colour, the trailer the time, every other byte and chunk and every other snapshot time is unchanged, the chunk's snapshot time is `now`, the manifest matches, and the canvas stays healthy |
| Store.RecordedOutsideGrid | server/src/server.ts:390-392 | a coordinate at or past the edge names a missing chunk: the lookup or the write throws and nothing changes |
| Store.RecordedPastPalette | server/src/server.ts:402-420 | a colour past the palette is written with the time, then the snapshot throws: no new snapshot time, no new manifest, and the chunk cannot be rendered any more |
| Store.RecordedPoisoned | server/src/server.ts:89-97 | once a pixel of a chunk holds an index past the palette, every later placement elsewhere in that chunk fails and the snapshot time and manifest stop changing |
| Store.Canvas.constructor | server/src/server.ts:140-145 | every chunk is `S*S + 4` zero bytes and every snapshot time is the load time; the manifest is empty |
| Store.Canvas.Load | server/src/server.ts:160-168 | the loaded buffer replaces the chunk, and the snapshot time becomes `EPOCH_BASE` plus the trailer exactly when the buffer holds a whole trailer (a short read is caught) |
| Store.Canvas.LoadUnchecked | server/server.ts:132-134 | the loaded buffer replaces the chunk; the read succeeds iff the buffer holds a whole trailer; otherwise it throws inside the callback (`ok == false`), which ends the process |
| Store.Canvas.SavePng | server/src/server.ts:78-104 | the snapshot succeeds iff every pixel indexes the palette; then its name carries the time and the chunk coordinates, its raster is the chunk through the palette, and the chunk's snapshot time becomes that time, otherwise nothing changes |
| Store.Canvas.Record | server/src/server.ts:390-420 | the lookup, the two writes, `savePNG` and `updateState` change the canvas exactly as the specification `Recorded` says |
| Store.Canvas.UpdateState | server/src/server.ts:106-113 | the manifest becomes the manifest of the current snapshot times, which are unchanged |
| Server.PlaceGate | server/src/server.ts:335-388 | 400 for a body that is not three values; 403 for a rejected or missing token; 400 for a missing `X-User`; 403 for a failed captcha; 400 for a captcha for another host; 403 for an `X-User` other than `sub`, checked after the captcha; then 400 iff a value is negative, NaN, or above the inclusive bound (`x > WIDTH`, `y > HEIGHT`, `v > COLORS.length`), and 429 iff `now - lst < TIMEOUT`; the request goes ahead exactly when none applies |
| Server.Cooldown | server/src/server.ts:448-451 | the wait is TIMEOUT, and five times TIMEOUT exactly when the captcha reported a score below the threshold; `Passed(Some(score))` follows the handler's own reads of `captcha.score` at :368 and :449 |
| Server.Stamped | server/src/server.ts:422-424 | after a placement the token has `lst = now`, `cnt` one more, the request address and no `exp`; `sub`, `jti`, `nme`, `iss` are unchanged |
| Server.SignPlacement | server/src/server.ts:422-424 | the payload object's updates and `applyJWT` produce exactly the stamped token |
| Server.Place | server/src/server.ts:335-455 | the handler's effect on the running canvas and the reply and token it produces equal the specification `PlaceSpec` of the canvas before the request |
| Server.OnlySuccessRecords | server/src/server.ts:379-420 | only a reply with `next` issues a token or changes a snapshot time or the manifest; a refusal changes nothing at all |
| Server.PlacementRecorded | server/src/server.ts:379-454 | a request the checks admit, on the canvas with a palette colour, is recorded, answered with `now` plus the cooldown, and gets a token with `lst = now`, `cnt` one more and the subject the client sent; the canvas stays healthy |
| Server.EdgeCoordinateCrashes | server/src/server.ts:380-392 | `x == WIDTH` or `y == HEIGHT` passes the checks; the lookup or the write then throws, nothing is written and no reply is sent |
| Server.EdgeRequestAdmitted | server/src/server.ts:379-383 | a concrete request with `x == WIDTH` that the checks admit |
| Server.PaletteEndPoisonsChunk | server/src/server.ts:380-420 | `v == COLORS.length` passes the checks, is written with the time, then the snapshot throws: no reply, no token, no new snapshot time, and the chunk cannot be rendered |
| Server.PaletteEndRequestAdmitted | server/src/server.ts:379-383 | a concrete request with `v == COLORS.length` that the checks admit |
| Server.CorrectedGate | server/src/server.ts:380 | the checks with exclusive upper bounds: they admit exactly what the written checks admit inside the canvas and palette, and give the same refusals otherwise |
| Server.CorrectedPlaceKeepsHealthy | server/src/server.ts:379-420 | with the corrected checks a healthy canvas never sees a thrown placement: a refusal changes nothing, an admitted request is answered with `next`, and the canvas stays healthy |
| Server.Minted | server/src/server.ts:251-259 | a registered payload has the given subject, name and `jti`, `lst = now - TIMEOUT`, `cnt = 0`, the request address and the issuer |
| Server.RegisterSpec | server/src/server.ts:220-261 | a rejected token gives 403; a token with a name gives 400; otherwise a failed captcha gives 403 and one issued to another host 400, and a passing captcha registers the token's subject, or a fresh one without a token, with the minted payload re-issued; a user id is returned exactly when a token is issued |
| Server.Register | server/src/server.ts:220-261 | the handler, which builds a new payload object and applies it, produces what `RegisterSpec` says |
| Server.RegisteredUserCanPlace | server/src/server.ts:249-259 | a freshly registered token passes the field check, has `cnt = 0`, and an in-range placement with it and the returned user id is admitted at once and at any later time |
| Server.RegistrationKeepsSubject | server/src/server.ts:249 | registering an unnamed token keeps its subject |
| Server.InfoCoordinates | server/src/server.ts:312-318 | the coordinates are accepted iff both parse to numbers in 0..WIDTH and 0..HEIGHT, bounds included, and are then the parsed values |
| Server.InfoOfDecimal | server/src/server.ts:312-318 | a coordinate written in decimal on the canvas or on its edge is looked up as itself |
| ServerV2.OverwriteColorsPng | server/server.ts:104-106 | the loop writes `hexToRgb(COLORS[c])` over every entry of the literal table that the palette covers and keeps the rest |
| ServerV2.TableMatchesPalette | server/server.ts:56-92 | the literal RGB table of 16 entries is exactly the palette parsed entry by entry |
| ServerV2.OverwriteKeepsTable | server/server.ts:75-106 | overwriting the literal table with the parsed palette leaves it unchanged |
| ServerV2.PlaceGateV2 | server/server.ts:243-282 | 400 for a body that is not three values; 403 for a rejected or missing token; 400 for a missing `X-User`, 403 for a different one; then 400 iff a value is negative or above the inclusive bound (`v > 16`), with no NaN test, and 429 iff `now - lst < TIMEOUT` |
| ServerV2.StampedV2 | server/server.ts:317-319 | after a placement the token has `lst = now`, `cnt` one more and no `exp`; the address and the other fields are unchanged |
| ServerV2.PlaceV2 | server/server.ts:243-323 | the handler's effect on the running canvas and its reply and token equal `PlaceSpecV2` of the canvas before the request |
| ServerV2.SignPlacementV2 | server/server.ts:317-319 | the payload object's updates and the reissuing `applyJWT` produce exactly the stamped token |
| ServerV2.MintedV2 | server/server.ts:362-372 | a minted payload has the fresh subject and `jti`, `lst = now - TIMEOUT`, `cnt = 0`, the request address, the issuer, no name and no `exp` |
| ServerV2.ApplyJwtV2 | server/server.ts:361-386 | no payload: a payload is minted, signed and its fresh subject returned; a payload object loses `exp` in place and its unchanged subject is returned |
| ServerV2.MintedTokenUsable | server/server.ts:362-372 | a minted payload passes the field check and is out of its cooldown at once |
| ServerV2.MintedUserCanPlace | server/server.ts:243-282 | a placement with a minted token and its own subject in `X-User` is admitted at once |
| ServerV2.PlacementRecordedV2 | server/server.ts:272-323 | an admitted request with integer values on the canvas and a palette colour is recorded and answered with `now + TIMEOUT`, with the stamped token, and the canvas stays healthy |
| ServerV2.NaNColourPaintsWhite | server/server.ts:272-298 | a NaN colour passes the checks and is stored as 0, which is white, and the placement succeeds |
| ServerV2.NaNCoordinateCrashes | server/server.ts:272-286 | a NaN coordinate passes the checks and the lookup or the write throws before anything is written |
| ServerV2.NaNRequestAdmitted | server/server.ts:272-276 | a concrete request with body `["a", 0, 0]` (first value NaN) that the checks admit |
| ServerV2.EdgeCasesV2 | server/server.ts:273-315 | `x == WIDTH` passes and throws at the lookup with nothing written; `v == 16` is written with the time and the snapshot then throws, leaving the chunk unrenderable and the snapshot time unchanged |
| ServerV2.CorrectedGateV2 | server/server.ts:273 | the checks with numbers required and exclusive upper bounds: they admit exactly the written checks' admissions that are inside the canvas and palette, and give the same refusals otherwise |
| ServerV2.CorrectedPlaceV2KeepsHealthy | server/server.ts:272-323 | with the corrected checks nothing throws on a healthy canvas, the canvas stays healthy, and an admitted request is recorded as the written handler records it |
| ServerV1.SideCoordinates | server.ts:26-27 | a coordinate is on the 1024-wide canvas iff its chunk index is below 8, and the edge coordinate 1024 has chunk index 8 |
| ServerV1.ChunkAnswer | server.ts:63-76 | 400 iff a parsed coordinate is below 0 or above 8; otherwise the chunk's bytes when both are numbers below 8, and a thrown handler (500) when one is NaN or 8 |
| ServerV1.PlaceAnswer | server.ts:78-106 | 400 iff the body is not three values or a value is below 0 or above its inclusive bound (`v > 8`); a refusal or a thrown handler leaves the board unchanged |
| ServerV1.PlacementWritesOneByte | server.ts:89-97 | a placement on the canvas with a colour in 0..8 ends normally and changes exactly one byte, offset `(y - cY*S) * S + (x - cX*S)` of chunk `(x div S, y div S)` |
| ServerV1.PlacementReadsBack | server.ts:72-97 | after placing v at (x, y), `/chunk` for `(x div S, y div S)` in decimal returns a buffer holding v at that offset |
| ServerV1.ChunkPastEdgeCrashes | server.ts:67-72 | `cX == 8` passes the check and the lookup throws |
| ServerV1.PlacePastEdgeCrashes | server.ts:85-97 | `x == 1024` passes the check and the write throws, with the board unchanged |
| ServerV1.CorrectedChunkAnswer | server.ts:67 | with exclusive bounds and a NaN test the handler never throws; it serves exactly the chunks the written handler serves |
| ServerV1.CorrectedChunkAgrees | server.ts:63-76 | the corrected handler answers exactly as the written one wherever the written one does not throw |
| ServerV1.CorrectedPlaceAnswer | server.ts:85 | with exclusive bounds and a NaN test the handler never throws: it accepts exactly three integers on the canvas with a palette colour, and then does what the written handler does |
| ServerV1.CanvasV1.constructor | server.ts:39-45 | 8 x 8 chunks of `S*S` zero bytes, with no trailer |
| ServerV1.CanvasV1.GetChunk | server.ts:63-76 | the handler's answer is `ChunkAnswer` of the current board |
| ServerV1.CanvasV1.Place | server.ts:78-106 | the handler's answer and the board after it are `PlaceAnswer` of the board before it |
| Client.ParseChunkName | client/src/script.ts:176-179 | the parse fails (the handler throws) iff the name has fewer than three '_'-separated parts |
| Client.NameRoundTrip | server/src/server.ts:110 | parsing a name `c_<t>_<x>-<y>.png` gives exactly (x, y), for every time t |
| Client.ManifestParsesBack | client/script.ts:150-154 | entry i of the manifest parses to chunk `(i div ROWS, i mod ROWS)` |
| Client.NameWithoutUnderscoreThrows | client/src/script.ts:176-177 | a name without '_' makes the parse fail |
| Client.PollSpec | client/src/script.ts:170-200 | the poll admits names as `Admit` does, then drops the oldest name only when the list is longer than 50 and nothing threw |
| Client.AdmitCounts | client/src/script.ts:170-179 | the names remembered before stay first, and the list grows by one per drawn name, plus the name whose parse threw |
| Client.AdmitKeepsDistinct | client/src/script.ts:171-174 | a name already in the list is skipped, so the list stays free of duplicates |
| Client.AdmitRemembersAll | client/src/script.ts:171-174 | after a poll that did not throw every name of the manifest is in the list |
| Client.PollGrowth | client/src/script.ts:198-200 | at most one name, the oldest, is dropped: a list of at most 50 stays at most 50 after one draw, and two or more draws make it grow |
| Client.StatePoller.Poll | client/src/script.ts:170-205 | the loop over the manifest and the final `shift` leave the list and produce the draws and the thrown flag that `PollSpec` gives |
| Client.ZeroPadded | client/src/script.ts:383-388 | the result has length max(\|s\|, l), ends with s, every added character is '0', and s itself when it is long enough |
| Client.Pad | client/script.ts:241-246 | the while loop returns the zero-padded string |
| Client.Countdown | client/src/script.ts:371-380 | the timer stops iff diff <= 0; otherwise m >= 0 and 0 <= s < 60 with 60m + s = diff |
| Client.CountdownUnique | client/script.ts:229-238 | any m and s with 0 <= s < 60 and 60m + s = diff are the ones the timer shows |
| Client.TimerTextShape | client/src/script.ts:378-380 | below 100 minutes the timer text is five characters, "mm:ss", with the seconds zero-padded |
| Client.TimeSince | client/src/script.ts:278-304 | the unit is the largest of year, month, day, hour, minute whose count of elapsed seconds strictly exceeds one, reported as the floor of that count; otherwise seconds |
| Client.FloorOfQuotient | client/src/script.ts:282-285 | the floating division floored equals the integer quotient, and it exceeds 1 iff the dividend exceeds the divisor |
| Client.ExactUnitsReadSmaller | client/src/script.ts:284-303 | exactly one year reads as 12 months, and exactly one minute as 60 seconds, because the comparison is strict |
| Client.Placer.constructor | client/src/script.ts:270-276 | a placer starts with no colour selected |
| Client.Placer.Place | client/src/script.ts:317-329 | a request is sent iff a colour is selected and `now >= n`, and it is `[x, y, colour]` |
| Client.Placer.Receive | client/src/script.ts:330-342 | the pixel is painted only on 200, the selection is cleared on every reply, and `n` changes only when the reply carries a non-zero `next` |
| Client.WaitCoversCooldown | client/src/script.ts:340-342 | a client waiting until the `next` it was given is past the server's cooldown for the token it received |
| Client.WaitMatchesCooldownV2 | client/script.ts:202-204 | against server/server.ts the client's gate opens exactly when the server's cooldown for the issued token is over |
| ClientV1.DecodeMatchesPlace | script.ts:91-93 | canvas pixel (X, Y) is pixel (X mod S, Y mod S) of chunk (X div S, Y div S), and the client reads the byte the server writes for it |
| ClientV1.Screen.constructor | script.ts:84-102 | an empty picture and no fill yet |
| ClientV1.Screen.LoadChunk | script.ts:84-102 | the nested loops paint every pixel of the chunk's square with the fill the byte selects, leave the rest of the picture unchanged, and add exactly the square to it |
| ClientV1.Screen.PaintColumn | script.ts:90-99 | the inner loop paints one column of the square and nothing else |
| ClientV1.PlacedPixelShown | script.ts:84-102 | after a placement of colour v on the first server, painting that chunk shows the pixel in palette colour v |
| ClientV1.PaletteEndShowsNeighbour | script.ts:93-94 | the first server stores colour 8, which has no palette entry; the client then shows the colour of the pixel above |
| ClientV1.Across | script.ts:74 | the loop bound counts exactly the chunk indices c with `c < w / S` |
| ClientV1.Columns | script.ts:74-78 | the requests cover exactly the pairs (cX, cY) with both below the bound |
| ClientV1.ChunkRequests | script.ts:74-78 | the nested loops request the chunks in the order `Columns` gives, with the width as both bounds |
| ClientV1.RequestsMatchGrid | script.ts:74-78 | against the first server, whose width is 1024, the client asks for exactly the 8 x 8 chunks, and the server answers each with its bytes |
| ClientV1.PlacerV1.Place | script.ts:114-122 | a request is sent iff a colour is selected, and it is `[x, y, colour]` |
| ClientV1.PlacerV1.Receive | script.ts:123-128 | the pixel is painted only on 200, and the selection is cleared on every reply |
| ClientV1.SentRequestAccepted | script.ts:114-122 | a request the first client sends for a pixel on the canvas and a palette colour is accepted by the first server |

## Left out

- File and network I/O is not modelled: zlib `deflate`/`inflate`, PNG encoding, file streams, `.bck` copies, the PNG files themselves, express routing, CORS and cookies. A snapshot is its name and its raw RGB raster.
- The token library signs and verifies tokens; the model takes what verification delivers as an input.
- The reCAPTCHA call (server/src/captcha.ts) is an input, as is its threshold, which is not defined in the files modelled.
- Server.Cooldown: the captcha.ts in this repository returns a boolean, so `captcha.score` is always undefined there (`Passed(None)`) and the five-fold cooldown never applies. `Passed(Some(score))` follows the handler's own reads of `captcha.score` (server/src/server.ts:368, 449).
- A throw inside the async `PUT /place` handler of server/src/server.ts (an outcome `Crash`) is assumed to leave the process running with the canvas as far as it was written. Express 4 ignores the returned promise, so the throw is an unhandled rejection: pm2 logs it and the process keeps running, while plain Node 16 would exit. `Server.PaletteEndPoisonsChunk`, `Store.RecordedPoisoned` and the second Findings row rely on this.
- The rate limiters, the database models, the caches, `makeName` and `/hello` are not modelled.
- `Date.now()` is an input. Each handler reads the clock once, though the source reads it several times.
- Concurrency is not modelled. Stream and inflate callbacks in start-up loading may land after placements; loading is one sequential step before any write.
- A failed load ends the process in both servers, and the model stops at that point. In server/src/server.ts an inflate error stores `undefined` as the chunk, and the next `buffer.length` throws uncaught inside the callback. In server/server.ts the same `undefined`, or a buffer too short for the trailer, makes `readUint32LE` throw inside the callback. `Store.Canvas.LoadUnchecked` reports a short buffer as `ok == false`. The model only loads byte buffers, so the `undefined` case is not modelled.
- Body values other than integers and values `isNaN` reports as NaN are not modelled: fractions, numeric strings such as `"5"`, booleans and arrays. Fractional coordinates would give fractional offsets.
- `null` in a body is not modelled. `JSON.stringify` sends NaN as `null`, and every check and write treats `null` as 0, so `[null, 0, 0]` places a pixel at (0, 0).
- Every 32-bit time is assumed to fit. The trailer write fails in the model for times that do not, as Node's range check does.
- Browser presentation is not modelled: drawing, image elements, camera, local storage, timers and `updateTimeout`. A drawn image is the chunk coordinate it is drawn at, and a filled pixel an entry of a map.
- Client.Placer: only the colour selection is modelled. `executeCaptcha` and the `X-User` header come from outside.
- Client.ParseChunkName: the older client (client/script.ts:150-154) parses names the same way but keeps no list; only its parse is modelled.
- ClientV1.ChunkRequests: the height argument is not used, as in the source, which bounds both loops by the width.

## Findings

| source | as written | input that shows it | evidently intended | confidence | as-written member | corrected member |
|---|---|---|---|---|---|---|
| server/src/server.ts:380 | `x > WIDTH` and `y > HEIGHT` admit the edge, so the lookup of chunk column `WIDTH / CHUNK_SIZE` throws | body `[256, 0, 0]`, valid token, a minute after `lst` | `x >= WIDTH`, `y >= HEIGHT`: refuse with 400 | not executed | Server.EdgeCoordinateCrashes, Server.EdgeRequestAdmitted | Server.CorrectedGate, Server.CorrectedPlaceKeepsHealthy |
| server/src/server.ts:380 | `v > COLORS.length` admits `v == 32`; the byte and time are written, then `savePNG` throws on the missing palette entry and the chunk can no longer be snapshotted | body `[0, 0, 32]`, valid token, a minute after `lst` | `v >= COLORS.length`: refuse with 400 | not executed | Server.PaletteEndPoisonsChunk, Server.PaletteEndRequestAdmitted, Store.RecordedPoisoned | Server.CorrectedGate, Server.CorrectedPlaceKeepsHealthy |
| server/server.ts:273 | the same inclusive bounds, and no NaN test: `x == WIDTH` throws at the lookup, `v == 16` poisons the chunk, a NaN coordinate throws, a NaN colour paints white | body `[256, 0, 0]`, `[0, 0, 16]` or `["a", 0, 0]` with a valid token | exclusive bounds and a NaN test, as the later server has for NaN | not executed | ServerV2.EdgeCasesV2, ServerV2.NaNCoordinateCrashes, ServerV2.NaNRequestAdmitted | ServerV2.CorrectedGateV2, ServerV2.CorrectedPlaceV2KeepsHealthy |
| server.ts:67 | `cX > WIDTH / CHUNK_SIZE` admits `cX == 8`, and `CHUNKS[8][cY]` throws | `GET /chunk/8/0` | `cX >= WIDTH / CHUNK_SIZE`: refuse with 400 | not executed | ServerV1.ChunkPastEdgeCrashes | ServerV1.CorrectedChunkAnswer, ServerV1.CorrectedChunkAgrees |
| server.ts:85 | `x > WIDTH` admits `x == 1024`, whose chunk does not exist, and `v > COLORS.length` stores colour 8, which the client cannot draw | body `[1024, 0, 0]`; body `[0, 1, 8]` | exclusive bounds: refuse with 400 | not executed | ServerV1.PlacePastEdgeCrashes, ClientV1.PaletteEndShowsNeighbour | ServerV1.CorrectedPlaceAnswer |
