/** The canvas of the two later servers (server/server.ts and server/src/server.ts): the
    2 x 2 grid of chunk buffers with their timestamp trailers, the per-chunk time of the last
    snapshot (`LAST_UPDATES`), and the manifest of snapshot names (`state`) that `/state`
    serves. */
module Store {
  import opened Js
  import opened Bytes
  import opened Util
  import opened Data
  import opened Chunks

  /** Bytes a fresh chunk buffer holds: the pixels and the trailer. */
  const CHUNK_BYTES: int := AREA + MOD_SIZE

  /** The name of a chunk snapshot, `c_<t>_<x>-<y>.png`. */
  function ChunkName(t: int, x: int, y: int): string
  {
    "c_" + Decimal(t) + "_" + Decimal(x) + "-" + Decimal(y) + ".png"
  }

  /** A COLS x ROWS table. */
  predicate Shaped<T>(table: seq<seq<T>>)
  {
    |table| == COLS && forall x :: 0 <= x < COLS ==> |table[x]| == ROWS
  }

  /** The manifest `updateState` builds from the snapshot times: one name per chunk, column
      by column, so that the name of chunk (x, y) is entry `Slot(x, y)`. */
  function Manifest(lastUpdates: seq<seq<int>>): (names: seq<string>)
    requires Shaped(lastUpdates)
    ensures |names| == COLS * ROWS
    ensures forall x, y :: 0 <= x < COLS && 0 <= y < ROWS ==>
      names[Slot(x, y)] == ChunkName(lastUpdates[x][y], x, y)
  {
    ManifestIndex();
    seq(COLS * ROWS, i requires 0 <= i < COLS * ROWS =>
      var (x, y) := ChunkOf(i); ChunkName(lastUpdates[x][y], x, y))
  }

  /** Entry x * ROWS + y of the manifest belongs to chunk (x, y). */
  lemma ManifestIndex()
    ensures forall x, y :: 0 <= x < COLS && 0 <= y < ROWS ==> ChunkOf(Slot(x, y)) == (x, y)
  {
    forall x, y | 0 <= x < COLS && 0 <= y < ROWS ensures ChunkOf(Slot(x, y)) == (x, y) {
      assert Slot(x, y) == 2 * x + y;
    }
  }

  /** Position of chunk (x, y) in the manifest: columns one after the other. */
  function Slot(x: int, y: int): int
  {
    x * ROWS + y
  }

  /** With two rows per column, slot (x, y) is 2x + y. */
  lemma SlotValue(x: int, y: int)
    ensures Slot(x, y) == 2 * x + y
  {
    assert ROWS == 2;
  }

  /** The chunk whose name is entry i of the manifest. */
  function ChunkOf(i: int): (int, int)
  {
    (i / ROWS, i % ROWS)
  }

  /** The snapshot times after loading `data` into chunk (x, y): the trailer is read back
      only when the buffer has the four bytes after the pixels. */
  function LoadedTimes(lastUpdates: seq<seq<int>>, x: int, y: int, data: seq<uint8>): (r: seq<seq<int>>)
    requires Shaped(lastUpdates) && 0 <= x < COLS && 0 <= y < ROWS
    ensures Shaped(r)
  {
    if |data| >= AREA + 4 then
      lastUpdates[x := lastUpdates[x][y := EPOCH_BASE + Le32Value(data[AREA..AREA + 4])]]
    else lastUpdates
  }

  /** Persisting a placed chunk and loading it again restores the placement time as the
      chunk's snapshot time. */
  lemma LoadRestoresPlacementTime(lastUpdates: seq<seq<int>>, x: int, y: int, bytes: seq<uint8>, off: int, v: uint8, now: int)
    requires Shaped(lastUpdates) && 0 <= x < COLS && 0 <= y < ROWS
    requires 0 <= off < AREA && AREA + 4 <= |bytes| && 0 <= now - EPOCH_BASE < TWO32
    ensures LoadedTimes(lastUpdates, x, y, Placed(bytes, off, v, now - EPOCH_BASE))[x][y] == now
  {
    PlacedReadsBack(bytes, off, v, now - EPOCH_BASE);
  }

  /** A file too short for the trailer leaves the time the server started with. */
  lemma ShortLoadKeepsTime(lastUpdates: seq<seq<int>>, x: int, y: int, data: seq<uint8>)
    requires Shaped(lastUpdates) && 0 <= x < COLS && 0 <= y < ROWS
    requires AREA < |data| < AREA + 4
    ensures LoadedTimes(lastUpdates, x, y, data) == lastUpdates
  {
  }

  /** A snapshot file: its name and the RGB raster written to it. */
  datatype PngFile = PngFile(name: string, raster: seq<uint8>)

  /** `t[x][y] = e` on a table. */
  function SetCell<T>(t: seq<seq<T>>, x: int, y: int, e: T): (r: seq<seq<T>>)
    requires 0 <= x < |t| && 0 <= y < |t[x]|
    ensures |r| == |t| && forall i :: 0 <= i < |t| ==> |r[i]| == |t[i]|
    ensures r[x][y] == e
    ensures forall i, j :: 0 <= i < |t| && 0 <= j < |t[i]| && (i != x || j != y) ==> r[i][j] == t[i][j]
  {
    t[x := t[x][y := e]]
  }

  /** `Math.floor(x / CHUNK_SIZE)` is the chunk column of a canvas coordinate, and
      `x - cX * CHUNK_SIZE` the coordinate inside the chunk. */
  lemma ChunkCoordinates(x: nat)
    ensures 0 <= x - (x / CHUNK_SIZE) * CHUNK_SIZE < CHUNK_SIZE
    ensures x < WIDTH ==> x / CHUNK_SIZE < COLS
    ensures x / CHUNK_SIZE < COLS ==> x < WIDTH
  {
    assert CHUNK_SIZE == 128;
  }

  /** Offset of canvas pixel (x, y) inside its chunk: `iY * CHUNK_SIZE + iX`. */
  function PlaceOffset(x: nat, y: nat): (off: int)
    ensures 0 <= off < AREA
  {
    ChunkCoordinates(x);
    ChunkCoordinates(y);
    PixelOffset(x - (x / CHUNK_SIZE) * CHUNK_SIZE, y - (y / CHUNK_SIZE) * CHUNK_SIZE)
  }

  /** Two canvas pixels land on the same chunk and offset only if they are the same pixel. */
  lemma PlaceOffsetInjective(x1: nat, y1: nat, x2: nat, y2: nat)
    requires x1 / CHUNK_SIZE == x2 / CHUNK_SIZE && y1 / CHUNK_SIZE == y2 / CHUNK_SIZE
    ensures PlaceOffset(x1, y1) == PlaceOffset(x2, y2) ==> x1 == x2 && y1 == y2
  {
    ChunkCoordinates(x1);
    ChunkCoordinates(y1);
    ChunkCoordinates(x2);
    ChunkCoordinates(y2);
    PixelOffsetBijective(x1 - (x1 / CHUNK_SIZE) * CHUNK_SIZE, y1 - (y1 / CHUNK_SIZE) * CHUNK_SIZE,
                         x2 - (x2 / CHUNK_SIZE) * CHUNK_SIZE, y2 - (y2 / CHUNK_SIZE) * CHUNK_SIZE, 0);
  }

  /** Everything a request can change on the canvas: the chunk bytes, the snapshot times
      and the manifest. */
  datatype World = World(chunks: seq<seq<seq<uint8>>>, lastUpdates: seq<seq<int>>, state: seq<string>)

  predicate WorldShaped(w: World)
  {
    Shaped(w.chunks) && Shaped(w.lastUpdates)
  }

  /** Whether every step of a placement went through, and the canvas afterwards. */
  datatype Step = Step(ok: bool, world: World)

  /** The canvas steps of a placement of colour v at (x, y) at time now, once the checks
      have passed: `CHUNKS[cX][cY]`, `writeUInt8`, `writeUint32LE`, `savePNG` with the given
      palette and `updateState`. A step that throws ends the request and keeps what the
      steps before it wrote. */
  function Recorded(w: World, x: nat, y: nat, v: nat, palette: seq<Rgb>, now: int): (r: Step)
    requires WorldShaped(w)
    ensures WorldShaped(r.world)
    ensures !r.ok ==> r.world.lastUpdates == w.lastUpdates && r.world.state == w.state
  {
    var cX, cY := x / CHUNK_SIZE, y / CHUNK_SIZE;
    if cX >= COLS || cY >= ROWS then Step(false, w)
    else
      var off := PlaceOffset(x, y);
      var bytes := w.chunks[cX][cY];
      var stamp := now - EPOCH_BASE;
      if v >= 256 || off >= |bytes| then Step(false, w)
      else if !(0 <= stamp < TWO32 && AREA + 4 <= |bytes|) then
        Step(false, w.(chunks := SetCell(w.chunks, cX, cY, bytes[off := v])))
      else
        var chunks := SetCell(w.chunks, cX, cY, Placed(bytes, off, v, stamp));
        if !Renderable(chunks[cX][cY], |palette|) then Step(false, w.(chunks := chunks))
        else
          var times := SetCell(w.lastUpdates, cX, cY, now);
          Step(true, World(chunks, times, Manifest(times)))
  }

  /** The outcome when every step goes through. */
  lemma RecordedPlaced(w: World, x: nat, y: nat, v: nat, palette: seq<Rgb>, now: int)
    requires WorldShaped(w)
    requires x / CHUNK_SIZE < COLS && y / CHUNK_SIZE < ROWS && v < 256
    requires var bytes := w.chunks[x / CHUNK_SIZE][y / CHUNK_SIZE];
      AREA + 4 <= |bytes| && 0 <= now - EPOCH_BASE < TWO32 &&
      Renderable(Placed(bytes, PlaceOffset(x, y), v, now - EPOCH_BASE), |palette|)
    ensures var cX, cY := x / CHUNK_SIZE, y / CHUNK_SIZE;
      var times := SetCell(w.lastUpdates, cX, cY, now);
      Recorded(w, x, y, v, palette, now) ==
        Step(true, World(SetCell(w.chunks, cX, cY, Placed(w.chunks[cX][cY], PlaceOffset(x, y), v, now - EPOCH_BASE)),
                         times, Manifest(times)))
  {
  }

  /** Every chunk can take a placement and be rendered with a palette of `colors`
      entries: long enough for the trailer, and every pixel a palette index. */
  predicate Healthy(w: World, colors: int)
  {
    WorldShaped(w) &&
    forall x, y :: 0 <= x < COLS && 0 <= y < ROWS ==>
      AREA + 4 <= |w.chunks[x][y]| && Renderable(w.chunks[x][y], colors)
  }

  /** The canvas a server starts with, before any file is loaded, is healthy. */
  lemma FreshCanvasHealthy(now: int, colors: int)
    requires colors >= 1
    ensures Healthy(World(seq(COLS, _ => seq(ROWS, _ => Zeros(CHUNK_BYTES))), seq(COLS, _ => seq(ROWS, _ => now)), []), colors)
  {
    var w := World(seq(COLS, _ => seq(ROWS, _ => Zeros(CHUNK_BYTES))), seq(COLS, _ => seq(ROWS, _ => now)), []);
    forall x, y | 0 <= x < COLS && 0 <= y < ROWS
      ensures AREA + 4 <= |w.chunks[x][y]| && Renderable(w.chunks[x][y], colors)
    {
      assert w.chunks[x][y] == Zeros(CHUNK_BYTES);
    }
  }

  /** The chunk column, chunk row and offset of canvas pixel (x, y). */
  function Target(x: nat, y: nat): (t: (int, int, int))
    ensures 0 <= t.2 < AREA
    ensures x < WIDTH && y < HEIGHT ==> 0 <= t.0 < COLS && 0 <= t.1 < ROWS
  {
    ChunkCoordinates(x);
    ChunkCoordinates(y);
    (x / CHUNK_SIZE, y / CHUNK_SIZE, PlaceOffset(x, y))
  }

  /** On a healthy canvas, with a time the trailer can hold, a placement inside the canvas
      with a palette colour goes through: the pixel holds the colour and the trailer the
      time, nothing else in the canvas changes, the chunk's snapshot time is now, the
      manifest lists the new names, and the canvas stays healthy. */
  lemma RecordedWrites(w: World, x: nat, y: nat, v: nat, palette: seq<Rgb>, now: int)
    requires Healthy(w, |palette|) && 0 <= now - EPOCH_BASE < TWO32
    requires x < WIDTH && y < HEIGHT && v < |palette| <= 256
    ensures var r := Recorded(w, x, y, v, palette, now);
      var (cX, cY, off) := Target(x, y);
      r.ok &&
      r.world.chunks[cX][cY][off] == v &&
      ReadUInt32LE(r.world.chunks[cX][cY], AREA) == Some(now - EPOCH_BASE) &&
      (forall i :: 0 <= i < |w.chunks[cX][cY]| && i != off && !(AREA <= i < AREA + 4) ==>
        r.world.chunks[cX][cY][i] == w.chunks[cX][cY][i]) &&
      (forall i, j :: 0 <= i < COLS && 0 <= j < ROWS && (i != cX || j != cY) ==>
        r.world.chunks[i][j] == w.chunks[i][j] && r.world.lastUpdates[i][j] == w.lastUpdates[i][j]) &&
      r.world.lastUpdates[cX][cY] == now &&
      r.world.state == Manifest(r.world.lastUpdates) &&
      Healthy(r.world, |palette|)
  {
    ChunkCoordinates(x);
    ChunkCoordinates(y);
    var (cX, cY, off) := Target(x, y);
    var bytes := w.chunks[cX][cY];
    var stamp := now - EPOCH_BASE;
    var placed := Placed(bytes, off, v, stamp);
    PlacedReadsBack(bytes, off, v, stamp);
    forall i | 0 <= i < AREA ensures placed[i] < |palette| {
      if i != off {
        assert placed[i] == bytes[i];
      }
    }
    RecordedPlaced(w, x, y, v, palette, now);
    var r := Recorded(w, x, y, v, palette, now);
    forall i, j | 0 <= i < COLS && 0 <= j < ROWS
      ensures AREA + 4 <= |r.world.chunks[i][j]| && Renderable(r.world.chunks[i][j], |palette|)
    {
      if i == cX && j == cY {
        assert r.world.chunks[i][j] == placed;
      }
    }
  }

  /** A coordinate at or past the edge of the canvas names a chunk column or row that does
      not exist: the lookup (a missing column) or the byte write (a missing row) throws
      before anything is written. */
  lemma RecordedOutsideGrid(w: World, x: nat, y: nat, v: nat, palette: seq<Rgb>, now: int)
    requires WorldShaped(w) && (x >= WIDTH || y >= HEIGHT)
    ensures Recorded(w, x, y, v, palette, now) == Step(false, w)
  {
    ChunkCoordinates(x);
    ChunkCoordinates(y);
  }

  /** A colour index past the palette (but still a byte) is written with the time, then
      the snapshot finds no palette entry for it and throws: the snapshot time and the
      manifest stay as they were, and the chunk can no longer be rendered. */
  lemma RecordedPastPalette(w: World, x: nat, y: nat, v: nat, palette: seq<Rgb>, now: int)
    requires Healthy(w, |palette|) && 0 <= now - EPOCH_BASE < TWO32
    requires x < WIDTH && y < HEIGHT && |palette| <= v < 256
    ensures var r := Recorded(w, x, y, v, palette, now);
      var (cX, cY, off) := Target(x, y);
      !r.ok && r.world.lastUpdates == w.lastUpdates && r.world.state == w.state &&
      r.world.chunks[cX][cY][off] == v && !Renderable(r.world.chunks[cX][cY], |palette|)
  {
    ChunkCoordinates(x);
    ChunkCoordinates(y);
    var (cX, cY, off) := Target(x, y);
    PlacedReadsBack(w.chunks[cX][cY], off, v, now - EPOCH_BASE);
  }

  /** Once a pixel holds an index past the palette, every later placement elsewhere in that
      chunk fails after writing, so the chunk's snapshot time and the manifest stop
      changing. */
  lemma RecordedPoisoned(w: World, x: nat, y: nat, v: nat, palette: seq<Rgb>, now: int, bad: int)
    requires WorldShaped(w)
    requires var (cX, cY, off) := Target(x, y);
      0 <= cX < COLS && 0 <= cY < ROWS && 0 <= bad < AREA && bad != off &&
      bad < |w.chunks[cX][cY]| && w.chunks[cX][cY][bad] >= |palette|
    ensures var r := Recorded(w, x, y, v, palette, now);
      !r.ok && r.world.lastUpdates == w.lastUpdates && r.world.state == w.state
  {
    var (cX, cY, off) := Target(x, y);
    var bytes := w.chunks[cX][cY];
    if v < 256 && off < |bytes| && 0 <= now - EPOCH_BASE < TWO32 && AREA + 4 <= |bytes| {
      PlacedReadsBack(bytes, off, v, now - EPOCH_BASE);
      assert Placed(bytes, off, v, now - EPOCH_BASE)[bad] >= |palette|;
    }
  }

  /** The canvas state of a running server. */
  class Canvas {
    const grid: ChunkGrid
    var lastUpdates: seq<seq<int>>
    var state: seq<string>

    ghost predicate Valid()
      reads this, grid
    {
      grid.Valid() && grid.cols == COLS && grid.rows == ROWS && Shaped(lastUpdates)
    }

    /** The canvas as a value. */
    ghost function Snapshot(): (w: World)
      requires Valid()
      reads this, grid, grid.Repr()
      ensures WorldShaped(w) && w.lastUpdates == lastUpdates && w.state == state
      ensures forall x, y :: 0 <= x < COLS && 0 <= y < ROWS ==> w.chunks[x][y] == grid.chunks[x][y][..]
    {
      World(grid.Contents(), lastUpdates, state)
    }

    /** Startup: every chunk a zero-filled buffer with room for the trailer, and every
        snapshot time the start time. The manifest is built later by `updateState`. */
    constructor (now: int)
      ensures Valid() && fresh(grid) && fresh(grid.Repr())
      ensures grid.Contents() == seq(COLS, _ => seq(ROWS, _ => Zeros(CHUNK_BYTES)))
      ensures lastUpdates == seq(COLS, _ => seq(ROWS, _ => now)) && state == []
    {
      grid := new ChunkGrid(COLS, ROWS, CHUNK_BYTES);
      lastUpdates := seq(COLS, _ => seq(ROWS, _ => now));
      state := [];
    }

    /** The inflated file of chunk (x, y) arrives (server/src/server.ts): it replaces the
        buffer, and its trailer is read if the buffer is longer than the pixels; a read
        that throws for lack of bytes is caught and ignored. */
    method Load(x: nat, y: nat, data: seq<uint8>)
      requires Valid() && x < COLS && y < ROWS
      modifies this, grid
      ensures Valid() && state == old(state)
      ensures grid.Contents() == old(grid.Contents())[x := old(grid.Contents())[x][y := data]]
      ensures lastUpdates == LoadedTimes(old(lastUpdates), x, y, data)
    {
      grid.Replace(x, y, data);
      ghost var c := grid.Contents();
      if |data| > AREA {
        var t := ReadUInt32LE(data, AREA);
        if t.Some? {
          lastUpdates := lastUpdates[x := lastUpdates[x][y := EPOCH_BASE + t.value]];
          grid.ContentsAre(c);
        }
      }
    }

    /** The same callback in server/server.ts reads the trailer with no length check, so a
        short buffer makes the read throw after the buffer has been replaced. `ok == false`
        stands for that throw; nothing catches it, so it ends the process. */
    method LoadUnchecked(x: nat, y: nat, data: seq<uint8>) returns (ok: bool)
      requires Valid() && x < COLS && y < ROWS
      modifies this, grid
      ensures Valid() && state == old(state)
      ensures ok <==> |data| >= AREA + 4
      ensures grid.Contents() == old(grid.Contents())[x := old(grid.Contents())[x][y := data]]
      ensures lastUpdates == LoadedTimes(old(lastUpdates), x, y, data)
    {
      grid.Replace(x, y, data);
      ghost var c := grid.Contents();
      var t := ReadUInt32LE(data, AREA);
      if t.None? {
        return false;
      }
      lastUpdates := lastUpdates[x := lastUpdates[x][y := EPOCH_BASE + t.value]];
      grid.ContentsAre(c);
      ok := true;
    }

    /** `savePNG(cX, cY)` at time t: render the chunk through the palette and, when that
        succeeds, write the file `c_<t>_<cX>-<cY>.png` and record t as the chunk's time. */
    method SavePng(cX: nat, cY: nat, palette: seq<Rgb>, t: int) returns (file: Option<PngFile>)
      requires Valid() && cX < COLS && cY < ROWS
      modifies this
      ensures Valid() && state == old(state)
      ensures file.Some? <==> Renderable(grid.chunks[cX][cY][..], |palette|)
      ensures file.Some? ==> file.value.name == ChunkName(t, cX, cY)
      ensures file.Some? ==> IsRaster(file.value.raster, grid.chunks[cX][cY][..], palette)
      ensures lastUpdates == if file.Some? then old(lastUpdates)[cX := old(lastUpdates)[cX][cY := t]]
                             else old(lastUpdates)
    {
      var raster, ok := RenderChunk(grid.chunks[cX][cY], palette);
      if !ok {
        return None;
      }
      file := Some(PngFile(ChunkName(t, cX, cY), raster[..]));
      lastUpdates := lastUpdates[cX := lastUpdates[cX][cY := t]];
    }

    /** The canvas steps of a placement (see `Recorded`). */
    method Record(x: nat, y: nat, v: nat, palette: seq<Rgb>, now: int) returns (ok: bool)
      requires Valid()
      modifies this, grid.Repr()
      ensures Valid()
      ensures Step(ok, Snapshot()) == Recorded(old(Snapshot()), x, y, v, palette, now)
    {
      ghost var w := Snapshot();
      var cX, cY := x / CHUNK_SIZE, y / CHUNK_SIZE;
      if cX >= COLS || cY >= ROWS {
        return false;
      }
      var off := PlaceOffset(x, y);
      var stamp := now - EPOCH_BASE;
      ghost var bytes := w.chunks[cX][cY];
      var written := WriteChunk(cX, cY, off, v, stamp);
      if !written {
        return false;
      }
      ghost var chunks := SetCell(w.chunks, cX, cY, Placed(bytes, off, v, stamp));
      var file := SavePng(cX, cY, palette, now);
      if file.None? {
        return false;
      }
      assert Renderable(Placed(bytes, off, v, stamp), |palette|);
      ghost var times := SetCell(w.lastUpdates, cX, cY, now);
      UpdateState();
      assert Snapshot() == World(chunks, times, Manifest(times));
      RecordedPlaced(w, x, y, v, palette, now);
      ok := true;
    }

    /** `chunk.writeUInt8(v, off)` and `chunk.writeUint32LE(stamp, AREA)` on chunk (cX, cY):
        nothing changes when the first call throws, only the pixel when the second one
        does. */
    method WriteChunk(cX: nat, cY: nat, off: int, v: nat, stamp: int) returns (written: bool)
      requires Valid() && cX < COLS && cY < ROWS && 0 <= off < AREA
      modifies grid.Repr()
      ensures Valid()
      ensures var bytes := old(Snapshot()).chunks[cX][cY];
        written <==> v < 256 && off < |bytes| && 0 <= stamp < TWO32 && AREA + 4 <= |bytes|
      ensures var w := old(Snapshot());
        !(v < 256 && off < |w.chunks[cX][cY]|) ==> Snapshot() == w
      ensures var w := old(Snapshot());
        v < 256 && off < |w.chunks[cX][cY]| && !written ==>
          Snapshot() == w.(chunks := SetCell(w.chunks, cX, cY, w.chunks[cX][cY][off := v]))
      ensures var w := old(Snapshot());
        written ==> Snapshot() == w.(chunks := SetCell(w.chunks, cX, cY, Placed(w.chunks[cX][cY], off, v, stamp)))
    {
      ghost var w := Snapshot();
      ghost var bytes := w.chunks[cX][cY];
      written := grid.WritePixel(cX, cY, off, Int(v), stamp);
      ghost var after := grid.chunks[cX][cY][..];
      ghost var chunks := SetCell(w.chunks, cX, cY, after);
      grid.ContentsAre(chunks);
      assert Snapshot() == w.(chunks := chunks);
      if !(v < 256 && off < |bytes|) {
        assert after == bytes;
        assert w.chunks[cX][cY := bytes] == w.chunks[cX];
        assert chunks == w.chunks;
      }
    }

    /** `updateState`: rebuild the manifest by pushing one name per chunk, column by column. */
    method UpdateState()
      requires Valid()
      modifies this
      ensures Valid() && lastUpdates == old(lastUpdates)
      ensures state == Manifest(lastUpdates)
    {
      ghost var m := Manifest(lastUpdates);
      assert |m| == 4 by {
        assert COLS == 2 && ROWS == 2;
      }
      var names: seq<string> := [];
      var x := 0;
      while x < COLS
        invariant 0 <= x <= COLS && unchanged(this)
        invariant names == m[..2 * x]
      {
        var y := 0;
        while y < ROWS
          invariant 0 <= y <= ROWS && unchanged(this)
          invariant names == m[..2 * x + y]
        {
          SlotValue(x, y);
          var name := ChunkName(lastUpdates[x][y], x, y);
          ExtendPrefix(m, names, name);
          names := names + [name];
          y := y + 1;
        }
        x := x + 1;
      }
      state := names;
    }
  }

  /** Appending the next entry of `s` to a prefix of `s` gives the next prefix. */
  lemma ExtendPrefix<T>(s: seq<T>, prefix: seq<T>, e: T)
    requires |prefix| < |s| && prefix == s[..|prefix|] && e == s[|prefix|]
    ensures prefix + [e] == s[..|prefix| + 1]
  {
  }
}
