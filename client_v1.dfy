/** The first client, script.ts, against the first server: it asks for every chunk, paints
    each byte of a chunk as one pixel through the palette, and sends placements with no
    cooldown. A fill colour that is not a string is ignored by the canvas, so a byte with
    no palette entry (or past the end of the data) is painted with the previous colour. */
module ClientV1 {
  import opened Js
  import opened Bytes
  import opened Data
  import opened Chunks
  import opened Store
  import opened ServerV1

  /** The canvas position of the top-left pixel of chunk column (or row) c. */
  function Origin(c: int): int
  {
    c * CHUNK_SIZE
  }

  /** Square position (x, y) of a chunk has a palette colour: the byte exists and indexes
      the palette. */
  predicate Defined(data: seq<uint8>, palette: seq<string>, x: int, y: int)
    requires 0 <= x < CHUNK_SIZE && 0 <= y < CHUNK_SIZE
  {
    PixelOffset(x, y) < |data| && data[PixelOffset(x, y)] < |palette|
  }

  /** The fill colour after `loadChunk` has visited square position (x, y), visiting y
      innermost: the position's palette colour, or, when it has none, the colour before. */
  function FillAfter(data: seq<uint8>, palette: seq<string>, fill0: string, x: int, y: int): string
    requires 0 <= x < CHUNK_SIZE && 0 <= y < CHUNK_SIZE
    decreases x, y
  {
    if Defined(data, palette, x, y) then palette[data[PixelOffset(x, y)]]
    else FillBefore(data, palette, fill0, x, y)
  }

  /** The fill colour when `loadChunk` reaches (x, y): that of the position visited last,
      or the colour before the loop for the first one. */
  function FillBefore(data: seq<uint8>, palette: seq<string>, fill0: string, x: int, y: int): string
    requires 0 <= x < CHUNK_SIZE && 0 <= y < CHUNK_SIZE
    decreases x, y, 0
  {
    if y > 0 then FillAfter(data, palette, fill0, x, y - 1)
    else if x > 0 then FillAfter(data, palette, fill0, x - 1, CHUNK_SIZE - 1)
    else fill0
  }

  /** Every pixel of the square of chunk (cX, cY) shows the fill colour it was painted with. */
  predicate Loaded(pixels: map<(int, int), string>, cX: int, cY: int, data: seq<uint8>, palette: seq<string>, fill0: string)
  {
    forall x, y :: 0 <= x < CHUNK_SIZE && 0 <= y < CHUNK_SIZE ==>
      (Origin(cX) + x, Origin(cY) + y) in pixels &&
      pixels[(Origin(cX) + x, Origin(cY) + y)] == FillAfter(data, palette, fill0, x, y)
  }

  /** One pixel of a loaded square. */
  lemma LoadedAt(pixels: map<(int, int), string>, cX: int, cY: int, data: seq<uint8>, palette: seq<string>, fill0: string, x: int, y: int)
    requires Loaded(pixels, cX, cY, data, palette, fill0) && 0 <= x < CHUNK_SIZE && 0 <= y < CHUNK_SIZE
    ensures (Origin(cX) + x, Origin(cY) + y) in pixels
    ensures pixels[(Origin(cX) + x, Origin(cY) + y)] == FillAfter(data, palette, fill0, x, y)
  {
  }

  /** Canvas pixel p lies in the square of chunk (cX, cY). */
  predicate InSquare(p: (int, int), cX: int, cY: int)
  {
    Origin(cX) <= p.0 < Origin(cX) + CHUNK_SIZE && Origin(cY) <= p.1 < Origin(cY) + CHUNK_SIZE
  }

  /** Canvas pixel (X, Y) is pixel (X mod S, Y mod S) of chunk (X div S, Y div S), and the
      byte the client reads for it is the one the server writes for it. */
  lemma DecodeMatchesPlace(px: nat, py: nat)
    ensures var x, y := px - Origin(px / CHUNK_SIZE), py - Origin(py / CHUNK_SIZE);
      0 <= x < CHUNK_SIZE && 0 <= y < CHUNK_SIZE &&
      Origin(px / CHUNK_SIZE) + x == px && Origin(py / CHUNK_SIZE) + y == py &&
      PixelOffset(x, y) == PlaceOffset(px, py)
  {
    ChunkCoordinates(px);
    ChunkCoordinates(py);
  }

  /** The canvas as the client paints it. */
  class Screen {
    var pixels: map<(int, int), string>
    var fill: string

    constructor ()
      ensures pixels == map[] && fill == ""
    {
      pixels, fill := map[], "";
    }

    /** The decode loop of `loadChunk` over the bytes of chunk (cX, cY). */
    method LoadChunk(cX: nat, cY: nat, data: seq<uint8>, palette: seq<string>)
      modifies this
      ensures Loaded(pixels, cX, cY, data, palette, old(fill))
      ensures fill == FillAfter(data, palette, old(fill), CHUNK_SIZE - 1, CHUNK_SIZE - 1)
      ensures forall p :: p in pixels <==> p in old(pixels) || InSquare(p, cX, cY)
      ensures forall p :: p in old(pixels) && !InSquare(p, cX, cY) ==> pixels[p] == old(pixels)[p]
    {
      var ox, oy := Origin(cX), Origin(cY);
      var x := 0;
      while x < CHUNK_SIZE
        invariant 0 <= x <= CHUNK_SIZE
        invariant forall i, j :: 0 <= i < x && 0 <= j < CHUNK_SIZE ==>
          (ox + i, oy + j) in pixels && pixels[(ox + i, oy + j)] == FillAfter(data, palette, old(fill), i, j)
        invariant fill == if x == 0 then old(fill) else FillAfter(data, palette, old(fill), x - 1, CHUNK_SIZE - 1)
        invariant forall p :: p in pixels <==> p in old(pixels) || (ox <= p.0 < ox + x && oy <= p.1 < oy + CHUNK_SIZE)
        invariant forall p :: p in old(pixels) && !InSquare(p, cX, cY) ==> pixels[p] == old(pixels)[p]
      {
        ghost var before := pixels;
        PaintColumn(cX, cY, x, data, palette, old(fill));
        forall i, j | 0 <= i < x + 1 && 0 <= j < CHUNK_SIZE
          ensures (ox + i, oy + j) in pixels && pixels[(ox + i, oy + j)] == FillAfter(data, palette, old(fill), i, j)
        {
          if i < x {
            assert (ox + i, oy + j) in before;
          }
        }
        x := x + 1;
      }
    }

    /** The inner loop of `loadChunk`: column x of the square, y from top to bottom. */
    method PaintColumn(cX: nat, cY: nat, x: int, data: seq<uint8>, palette: seq<string>, ghost fill0: string)
      requires 0 <= x < CHUNK_SIZE && fill == FillBefore(data, palette, fill0, x, 0)
      modifies this
      ensures forall j :: 0 <= j < CHUNK_SIZE ==>
        (Origin(cX) + x, Origin(cY) + j) in pixels &&
        pixels[(Origin(cX) + x, Origin(cY) + j)] == FillAfter(data, palette, fill0, x, j)
      ensures fill == FillAfter(data, palette, fill0, x, CHUNK_SIZE - 1)
      ensures forall p :: p in pixels <==>
        p in old(pixels) || (p.0 == Origin(cX) + x && Origin(cY) <= p.1 < Origin(cY) + CHUNK_SIZE)
      ensures forall p :: p in old(pixels) && !(p.0 == Origin(cX) + x && Origin(cY) <= p.1 < Origin(cY) + CHUNK_SIZE) ==>
        pixels[p] == old(pixels)[p]
    {
      var ox, oy := Origin(cX), Origin(cY);
      var y := 0;
      while y < CHUNK_SIZE
        invariant 0 <= y <= CHUNK_SIZE
        invariant forall j :: 0 <= j < y ==>
          (ox + x, oy + j) in pixels && pixels[(ox + x, oy + j)] == FillAfter(data, palette, fill0, x, j)
        invariant fill == if y == 0 then FillBefore(data, palette, fill0, x, 0) else FillAfter(data, palette, fill0, x, y - 1)
        invariant forall p :: p in pixels <==> p in old(pixels) || (p.0 == ox + x && oy <= p.1 < oy + y)
        invariant forall p :: p in old(pixels) && !(p.0 == ox + x && oy <= p.1 < oy + CHUNK_SIZE) ==>
          pixels[p] == old(pixels)[p]
      {
        var off := PixelOffset(x, y);
        if off < |data| && data[off] < |palette| {
          fill := palette[data[off]];
        }
        pixels := pixels[(ox + x, oy + y) := fill];
        y := y + 1;
      }
    }
  }

  /** After `/place` has written colour v at canvas pixel (X, Y) of the first server, loading
      that chunk shows the pixel in palette colour v. */
  lemma PlacedPixelShown(b: Board, px: nat, py: nat, v: nat, pixels: map<(int, int), string>, fill0: string)
    requires BoardShaped(b) && px < WIDTH_V1 && py < HEIGHT_V1 && v < |COLORS_8|
    requires var p := PlaceAnswer(b, Some([Int(px), Int(py), Int(v)]));
      Loaded(pixels, px / CHUNK_SIZE, py / CHUNK_SIZE, p.board[px / CHUNK_SIZE][py / CHUNK_SIZE], COLORS_8, fill0)
    ensures (px, py) in pixels && pixels[(px, py)] == COLORS_8[v]
  {
    PlacementWritesOneByte(b, px, py, Int(v));
    DecodeMatchesPlace(px, py);
    var x, y := px - Origin(px / CHUNK_SIZE), py - Origin(py / CHUNK_SIZE);
    var data := PlaceAnswer(b, Some([Int(px), Int(py), Int(v)])).board[px / CHUNK_SIZE][py / CHUNK_SIZE];
    LoadedAt(pixels, px / CHUNK_SIZE, py / CHUNK_SIZE, data, COLORS_8, fill0, x, y);
  }

  /** The guard of the first server stores colour 8, which has no palette entry: the pixel
      then shows the colour of the pixel above it. */
  lemma PaletteEndShowsNeighbour(b: Board, px: nat, py: nat, pixels: map<(int, int), string>, fill0: string)
    requires BoardShaped(b) && px < WIDTH_V1 && py < HEIGHT_V1 && py % CHUNK_SIZE > 0
    requires var p := PlaceAnswer(b, Some([Int(px), Int(py), Int(|COLORS_8|)]));
      Loaded(pixels, px / CHUNK_SIZE, py / CHUNK_SIZE, p.board[px / CHUNK_SIZE][py / CHUNK_SIZE], COLORS_8, fill0)
    ensures PlaceAnswer(b, Some([Int(px), Int(py), Int(|COLORS_8|)])).answer == Done
    ensures (px, py) in pixels && (px, py - 1) in pixels && pixels[(px, py)] == pixels[(px, py - 1)]
  {
    PlacementWritesOneByte(b, px, py, Int(|COLORS_8|));
    DecodeMatchesPlace(px, py);
    var x, y := px - Origin(px / CHUNK_SIZE), py - Origin(py / CHUNK_SIZE);
    var data := PlaceAnswer(b, Some([Int(px), Int(py), Int(|COLORS_8|)])).board[px / CHUNK_SIZE][py / CHUNK_SIZE];
    assert y == py % CHUNK_SIZE;
    LoadedAt(pixels, px / CHUNK_SIZE, py / CHUNK_SIZE, data, COLORS_8, fill0, x, y);
    LoadedAt(pixels, px / CHUNK_SIZE, py / CHUNK_SIZE, data, COLORS_8, fill0, x, y - 1);
  }

  /** The loop condition of `init`, `c < w / CHUNK_SIZE`, in floating point. */
  predicate BelowWidth(c: int, w: int)
  {
    (c as real) < (w as real) / (CHUNK_SIZE as real)
  }

  /** The number of chunk columns `init` asks for. */
  function Across(w: int): (n: nat)
    ensures forall c: nat :: c < n <==> BelowWidth(c, w)
  {
    assert CHUNK_SIZE == 128;
    if w <= 0 then 0
    else
      var n := (w - 1) / CHUNK_SIZE + 1;
      assert forall c: nat :: c < n <==> c * CHUNK_SIZE < w;
      n
  }

  /** The chunks of columns 0 .. k-1, each with rows 0 .. n-1, column by column. */
  function Columns(k: nat, n: nat): (r: seq<(int, int)>)
    ensures forall p :: p in r <==> 0 <= p.0 < k && 0 <= p.1 < n
  {
    if k == 0 then []
    else
      var col := seq(n, j => (k - 1, j));
      assert forall p :: p in col <==> p.0 == k - 1 && 0 <= p.1 < n by {
        forall p: (int, int) | p.0 == k - 1 && 0 <= p.1 < n ensures p in col {
          assert col[p.1] == p;
        }
      }
      Columns(k - 1, n) + col
  }

  /** The nested loops of `init`: both bounds come from the width. */
  method ChunkRequests(w: int, h: int) returns (reqs: seq<(int, int)>)
    ensures reqs == Columns(Across(w), Across(w))
  {
    var n := Across(w);
    reqs := [];
    var cX := 0;
    while BelowWidth(cX, w)
      invariant 0 <= cX <= n
      invariant reqs == Columns(cX, n)
      decreases n - cX
    {
      var cY := 0;
      ghost var before := reqs;
      while BelowWidth(cY, w)
        invariant 0 <= cY <= n
        invariant reqs == before + seq(cY, j => (cX, j))
        decreases n - cY
      {
        reqs := reqs + [(cX, cY)];
        cY := cY + 1;
      }
      cX := cX + 1;
    }
  }

  /** Against the first server, whose `/hello` gives w = 1024, the client asks for exactly
      the 8 x 8 chunks, and the server answers each with its bytes. */
  lemma RequestsMatchGrid(b: Board, cX: int, cY: int)
    requires BoardShaped(b)
    ensures Across(WIDTH_V1) == GRID_V1
    ensures (cX, cY) in Columns(Across(WIDTH_V1), Across(WIDTH_V1)) ==>
      0 <= cX && 0 <= cY && ChunkAnswer(b, Decimal(cX), Decimal(cY)) == Body(b[cX][cY])
  {
    assert CHUNK_SIZE == 128 && WIDTH_V1 == 1024;
    assert (WIDTH_V1 - 1) / CHUNK_SIZE + 1 == 8;
    if (cX, cY) in Columns(Across(WIDTH_V1), Across(WIDTH_V1)) {
      ParseIntOfDecimal(cX, []);
      ParseIntOfDecimal(cY, []);
      assert Decimal(cX) + [] == Decimal(cX);
      assert Decimal(cY) + [] == Decimal(cY);
    }
  }

  /** The placement controls of the first client: no cooldown, no token. */
  class PlacerV1 {
    var selectedColor: int
    var x: int
    var y: int
    var painted: map<(int, int), int>

    constructor (x: int, y: int)
      ensures selectedColor == -1 && this.x == x && this.y == y && painted == map[]
    {
      selectedColor, this.x, this.y, painted := -1, x, y, map[];
    }

    /** `placeSelectedColor` up to the request: sent whenever a colour is selected. */
    method Place() returns (request: Option<seq<int>>)
      ensures request.Some? <==> selectedColor >= 0
      ensures request.Some? ==> request.value == [x, y, selectedColor]
    {
      if selectedColor < 0 {
        return None;
      }
      request := Some([x, y, selectedColor]);
    }

    /** The reply handler: fill the pixel on a 200, then clear the selection. */
    method Receive(status: int)
      modifies this
      ensures selectedColor == -1 && x == old(x) && y == old(y)
      ensures painted == if status == 200 then old(painted)[(x, y) := old(selectedColor)] else old(painted)
    {
      if status == 200 {
        painted := painted[(x, y) := selectedColor];
      }
      selectedColor := -1;
    }
  }

  /** A request the first client sends with a palette colour and a pixel on the canvas is
      accepted by the first server. */
  lemma SentRequestAccepted(b: Board, x: nat, y: nat, colour: nat)
    requires BoardShaped(b) && x < WIDTH_V1 && y < HEIGHT_V1 && colour < |COLORS_8|
    ensures PlaceAnswer(b, Some([Int(x), Int(y), Int(colour)])).answer == Done
  {
    PlacementWritesOneByte(b, x, y, Int(colour));
  }
}
