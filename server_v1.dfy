/** The first server, server.ts: an 8 x 8 grid of chunks that hold only pixel bytes, a
    `/chunk/:x/:y` read and a `/place` that writes one byte. No token, no snapshot, no
    timestamp. Its handlers are synchronous, so a TypeError inside one is answered by
    express with status 500. */
module ServerV1 {
  import opened Js
  import opened Bytes
  import opened Data
  import opened Chunks
  import opened Store

  /** `WIDTH / CHUNK_SIZE` and `HEIGHT / CHUNK_SIZE`: chunks per side. */
  const GRID_V1: int := 8
  const WIDTH_V1: int := CHUNK_SIZE * GRID_V1
  const HEIGHT_V1: int := CHUNK_SIZE * GRID_V1

  /** The eight colours of server.ts. */
  const COLORS_8: seq<string> := ["#ffffff", "#000000", "#ff0000", "#ffff00", "#00ff00", "#00ffff", "#0000ff", "#ff00ff"]

  /** The chunk bytes, column by column. */
  type Board = seq<seq<seq<uint8>>>

  /** 8 x 8 chunks of `AREA` bytes each. */
  predicate BoardShaped(b: Board)
  {
    |b| == GRID_V1 &&
    forall x :: 0 <= x < GRID_V1 ==> |b[x]| == GRID_V1 && forall y :: 0 <= y < GRID_V1 ==> |b[x][y]| == AREA
  }

  /** A coordinate of the canvas lies in a chunk of the grid exactly when it is below the
      canvas side; the side itself falls in the column past the last. */
  lemma SideCoordinates(x: nat)
    ensures x < WIDTH_V1 <==> x / CHUNK_SIZE < GRID_V1
    ensures x == WIDTH_V1 ==> x / CHUNK_SIZE == GRID_V1
  {
    assert CHUNK_SIZE == 128 && WIDTH_V1 == 1024;
  }

  /** What a handler answers: an empty 200, a body of bytes, or a status. */
  datatype Answer = Done | Body(bytes: seq<uint8>) | Code(status: int)

  /** The guard of `/chunk/:x/:y`: negative or past `GRID_V1`; NaN passes. */
  predicate ChunkRefused(cX: Num, cY: Num)
  {
    Less(cX, 0) || Greater(cX, GRID_V1) || Less(cY, 0) || Greater(cY, GRID_V1)
  }

  /** `GET /chunk/:x/:y`: 400 when the guard refuses; the chunk's bytes when both numbers
      name a chunk; otherwise the lookup or `res.write(undefined)` throws and the answer
      is 500. */
  function ChunkAnswer(b: Board, xs: string, ys: string): (r: Answer)
    requires BoardShaped(b)
    ensures r == Code(400) <==> ChunkRefused(ParseInt(xs), ParseInt(ys))
    ensures r.Body? <==>
      (ParseInt(xs).Int? && ParseInt(ys).Int? &&
       0 <= ParseInt(xs).value < GRID_V1 && 0 <= ParseInt(ys).value < GRID_V1)
    ensures r.Body? ==> r.bytes == b[ParseInt(xs).value][ParseInt(ys).value]
    ensures r.Body? || r == Code(400) || r == Code(500)
  {
    var cX, cY := ParseInt(xs), ParseInt(ys);
    if ChunkRefused(cX, cY) then Code(400)
    else if cX.NaN? || cY.NaN? || cX.value == GRID_V1 || cY.value == GRID_V1 then Code(500)
    else Body(b[cX.value][cY.value])
  }

  /** The guard of `/place`: the bounds compared with `>`, no NaN test. */
  predicate PlaceRefused(x: Num, y: Num, v: Num)
  {
    Less(x, 0) || Less(y, 0) || Greater(x, WIDTH_V1) || Greater(y, HEIGHT_V1) || Less(v, 0) || Greater(v, |COLORS_8|)
  }

  /** The answer of `/place` and the board after it. */
  datatype Placement = Placement(answer: Answer, board: Board)

  /** `PUT /place` of server.ts. A NaN coordinate, or a coordinate equal to the side, gives
      no chunk and the write throws; a NaN colour is stored as 0. */
  function PlaceAnswer(b: Board, body: Option<seq<Num>>): (p: Placement)
    requires BoardShaped(b)
    ensures BoardShaped(p.board)
    ensures p.answer == Code(400) <==> body.None? || |body.value| != 3 || PlaceRefused(body.value[0], body.value[1], body.value[2])
    ensures p.answer == Done || p.answer == Code(400) || p.answer == Code(500)
    ensures p.answer != Done ==> p.board == b
  {
    if body.None? || |body.value| != 3 then Placement(Code(400), b)
    else
      var x, y, v := body.value[0], body.value[1], body.value[2];
      if PlaceRefused(x, y, v) then Placement(Code(400), b)
      else if x.NaN? || y.NaN? then Placement(Code(500), b)
      else if x.value / CHUNK_SIZE >= GRID_V1 || y.value / CHUNK_SIZE >= GRID_V1 then Placement(Code(500), b)
      else
        var cX, cY, off := x.value / CHUNK_SIZE, y.value / CHUNK_SIZE, PlaceOffset(x.value, y.value);
        Placement(Done, SetCell(b, cX, cY, b[cX][cY][off := if v.NaN? then 0 else v.value]))
  }

  /** A placement inside the canvas writes its colour at the pixel's offset in its chunk
      and changes no other byte of the board. */
  lemma PlacementWritesOneByte(b: Board, x: nat, y: nat, v: Num)
    requires BoardShaped(b) && x < WIDTH_V1 && y < HEIGHT_V1 && !Less(v, 0) && !Greater(v, |COLORS_8|)
    ensures var p := PlaceAnswer(b, Some([Int(x), Int(y), v]));
      var cX, cY, off := x / CHUNK_SIZE, y / CHUNK_SIZE, PlaceOffset(x, y);
      0 <= cX < GRID_V1 && 0 <= cY < GRID_V1 &&
      p.answer == Done && p.board[cX][cY][off] == (if v.NaN? then 0 else v.value) &&
      forall i, j, k :: 0 <= i < GRID_V1 && 0 <= j < GRID_V1 && 0 <= k < AREA && (i != cX || j != cY || k != off) ==>
        p.board[i][j][k] == b[i][j][k]
  {
    SideCoordinates(x);
    SideCoordinates(y);
  }

  /** Write then read: after a placement, `/chunk` for the pixel's chunk, asked with the
      chunk numbers in decimal, returns bytes holding the colour at the pixel's offset. */
  lemma PlacementReadsBack(b: Board, x: nat, y: nat, v: nat)
    requires BoardShaped(b) && x < WIDTH_V1 && y < HEIGHT_V1 && v <= |COLORS_8|
    ensures var p := PlaceAnswer(b, Some([Int(x), Int(y), Int(v)]));
      var r := ChunkAnswer(p.board, Decimal(x / CHUNK_SIZE), Decimal(y / CHUNK_SIZE));
      r.Body? && r.bytes[PlaceOffset(x, y)] == v
  {
    PlacementWritesOneByte(b, x, y, Int(v));
    ParseIntOfDecimal(x / CHUNK_SIZE, []);
    ParseIntOfDecimal(y / CHUNK_SIZE, []);
    assert Decimal(x / CHUNK_SIZE) + [] == Decimal(x / CHUNK_SIZE);
    assert Decimal(y / CHUNK_SIZE) + [] == Decimal(y / CHUNK_SIZE);
  }

  /** The guard of `/chunk` lets the column past the last through, and the answer is 500. */
  lemma ChunkPastEdgeCrashes(b: Board, cY: nat)
    requires BoardShaped(b) && cY < GRID_V1
    ensures !ChunkRefused(ParseInt(Decimal(GRID_V1)), ParseInt(Decimal(cY)))
    ensures ChunkAnswer(b, Decimal(GRID_V1), Decimal(cY)) == Code(500)
  {
    ParseIntOfDecimal(GRID_V1, []);
    ParseIntOfDecimal(cY, []);
    assert Decimal(GRID_V1) + [] == Decimal(GRID_V1);
    assert Decimal(cY) + [] == Decimal(cY);
  }

  /** The guard of `/place` lets `x == WIDTH` through; the write then throws, the answer is
      500, and nothing changes. */
  lemma PlacePastEdgeCrashes(b: Board, y: nat, v: nat)
    requires BoardShaped(b) && y <= HEIGHT_V1 && v <= |COLORS_8|
    ensures !PlaceRefused(Int(WIDTH_V1), Int(y), Int(v))
    ensures PlaceAnswer(b, Some([Int(WIDTH_V1), Int(y), Int(v)])) == Placement(Code(500), b)
  {
    SideCoordinates(WIDTH_V1);
  }

  /** `/chunk` with the guard written with `>=`: every request is answered with the bytes
      of a chunk or with 400. */
  function CorrectedChunkAnswer(b: Board, xs: string, ys: string): (r: Answer)
    requires BoardShaped(b)
    ensures r.Body? || r == Code(400)
    ensures r.Body? <==>
      (ParseInt(xs).Int? && ParseInt(ys).Int? &&
       0 <= ParseInt(xs).value < GRID_V1 && 0 <= ParseInt(ys).value < GRID_V1)
  {
    var cX, cY := ParseInt(xs), ParseInt(ys);
    if cX.NaN? || cY.NaN? || !(0 <= cX.value < GRID_V1) || !(0 <= cY.value < GRID_V1) then Code(400)
    else Body(b[cX.value][cY.value])
  }

  /** The corrected read agrees with the one as written wherever that one does not fail. */
  lemma CorrectedChunkAgrees(b: Board, xs: string, ys: string)
    requires BoardShaped(b)
    ensures ChunkAnswer(b, xs, ys) != Code(500) ==> CorrectedChunkAnswer(b, xs, ys) == ChunkAnswer(b, xs, ys)
  {
  }

  /** The body `/place` should accept: three numbers, a pixel on the canvas and a palette
      colour. */
  predicate PlaceableV1(body: Option<seq<Num>>)
  {
    body.Some? && |body.value| == 3 &&
    body.value[0].Int? && body.value[1].Int? && body.value[2].Int? &&
    0 <= body.value[0].value < WIDTH_V1 && 0 <= body.value[1].value < HEIGHT_V1 &&
    0 <= body.value[2].value < |COLORS_8|
  }

  /** `/place` with the bounds written with `>=` and NaN refused: it never fails, it
      accepts exactly the placeable bodies, and a placement it accepts is the one the
      handler as written performs. */
  function CorrectedPlaceAnswer(b: Board, body: Option<seq<Num>>): (p: Placement)
    requires BoardShaped(b)
    ensures BoardShaped(p.board)
    ensures p.answer == Done || (p.answer == Code(400) && p.board == b)
    ensures p.answer == Done <==> PlaceableV1(body)
    ensures p.answer == Done ==> p == PlaceAnswer(b, body)
  {
    if !PlaceableV1(body) then Placement(Code(400), b)
    else
      SideCoordinates(body.value[0].value);
      SideCoordinates(body.value[1].value);
      PlaceAnswer(b, body)
  }

  /** The running server's grid: `CHUNKS`, built once and written in place. */
  class CanvasV1 {
    const grid: ChunkGrid

    ghost predicate Valid()
      reads this, grid
    {
      grid.Valid() && grid.cols == GRID_V1 && grid.rows == GRID_V1 &&
      forall x, y :: 0 <= x < GRID_V1 && 0 <= y < GRID_V1 ==> grid.chunks[x][y].Length == AREA
    }

    /** The bytes of the grid. */
    ghost function Snapshot(): (b: Board)
      requires Valid()
      reads this, grid, grid.Repr()
      ensures BoardShaped(b)
    {
      grid.Contents()
    }

    /** The start-up loops: 8 x 8 zero-filled chunks of `AREA` bytes, no trailer. */
    constructor ()
      ensures Valid() && fresh(grid) && fresh(grid.Repr())
      ensures Snapshot() == seq(GRID_V1, _ => seq(GRID_V1, _ => Zeros(AREA)))
    {
      grid := new ChunkGrid(GRID_V1, GRID_V1, AREA);
      new;
      forall x, y | 0 <= x < GRID_V1 && 0 <= y < GRID_V1 ensures grid.chunks[x][y].Length == AREA {
        assert grid.Contents()[x][y] == Zeros(AREA);
      }
    }

    /** `GET /chunk/:x/:y` on the running grid. */
    method GetChunk(xs: string, ys: string) returns (r: Answer)
      requires Valid()
      ensures r == ChunkAnswer(Snapshot(), xs, ys)
    {
      var cX, cY := ParseInt(xs), ParseInt(ys);
      if ChunkRefused(cX, cY) {
        return Code(400);
      }
      if cX.NaN? || cY.NaN? || cX.value == GRID_V1 || cY.value == GRID_V1 {
        return Code(500);
      }
      r := Body(grid.chunks[cX.value][cY.value][..]);
    }

    /** `PUT /place` on the running grid. */
    method Place(body: Option<seq<Num>>) returns (r: Answer)
      requires Valid()
      modifies grid.Repr()
      ensures Valid()
      ensures Placement(r, Snapshot()) == PlaceAnswer(old(Snapshot()), body)
    {
      ghost var before := Snapshot();
      if body.None? || |body.value| != 3 {
        return Code(400);
      }
      var x, y, v := body.value[0], body.value[1], body.value[2];
      if PlaceRefused(x, y, v) {
        return Code(400);
      }
      if x.NaN? || y.NaN? || x.value / CHUNK_SIZE >= GRID_V1 || y.value / CHUNK_SIZE >= GRID_V1 {
        return Code(500);
      }
      var cX, cY, off := x.value / CHUNK_SIZE, y.value / CHUNK_SIZE, PlaceOffset(x.value, y.value);
      var a := grid.chunks[cX][cY];
      var _ := WriteUInt8(a, v, off);
      grid.ContentsAre(SetCell(before, cX, cY, before[cX][cY][off := if v.NaN? then 0 else v.value]));
      r := Done;
    }
  }
}
