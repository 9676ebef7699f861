/** The chunk store shared by the three servers: a grid of Node buffers, one per chunk.
    A buffer holds CHUNK_SIZE * CHUNK_SIZE palette indices, row by row, and in the two later
    servers a 4-byte little-endian modification time after them. */
module Chunks {
  import opened Js
  import opened Bytes
  import opened Util
  import opened Data

  /** Number of pixel bytes in a chunk. */
  const AREA: int := CHUNK_SIZE * CHUNK_SIZE

  /** What `Buffer.alloc(len)` holds. */
  function Zeros(len: nat): (z: seq<uint8>)
    ensures |z| == len && forall i :: 0 <= i < len ==> z[i] == 0
  {
    seq(len, _ => 0)
  }

  /** Offset of the pixel (iX, iY) inside its chunk. */
  function PixelOffset(iX: int, iY: int): (off: int)
    requires 0 <= iX < CHUNK_SIZE && 0 <= iY < CHUNK_SIZE
    ensures 0 <= off < AREA
  {
    iY * CHUNK_SIZE + iX
  }

  /** Different pixels of a chunk have different offsets, and every offset below AREA is
      the offset of one pixel. */
  lemma PixelOffsetBijective(iX: int, iY: int, jX: int, jY: int, off: int)
    requires 0 <= iX < CHUNK_SIZE && 0 <= iY < CHUNK_SIZE
    requires 0 <= jX < CHUNK_SIZE && 0 <= jY < CHUNK_SIZE
    requires 0 <= off < AREA
    ensures PixelOffset(iX, iY) == PixelOffset(jX, jY) ==> iX == jX && iY == jY
    ensures PixelOffset(off % CHUNK_SIZE, off / CHUNK_SIZE) == off
  {
  }

  /** The bytes of a chunk after `writeUInt8(v, off)` and `writeUint32LE(stamp, AREA)`. */
  function Placed(bytes: seq<uint8>, off: int, v: uint8, stamp: int): (r: seq<uint8>)
    requires 0 <= off < AREA && AREA + 4 <= |bytes| && 0 <= stamp < TWO32
    ensures |r| == |bytes|
  {
    bytes[off := v][..AREA] + Le32(stamp) + bytes[AREA + 4..]
  }

  /** Reading back a placed chunk gives the colour at the pixel and the stamp in the
      trailer, and every other byte is as it was. */
  lemma PlacedReadsBack(bytes: seq<uint8>, off: int, v: uint8, stamp: int)
    requires 0 <= off < AREA && AREA + 4 <= |bytes| && 0 <= stamp < TWO32
    ensures Placed(bytes, off, v, stamp)[off] == v
    ensures ReadUInt32LE(Placed(bytes, off, v, stamp), AREA) == Some(stamp)
    ensures forall i :: 0 <= i < |bytes| && i != off && !(AREA <= i < AREA + 4) ==>
      Placed(bytes, off, v, stamp)[i] == bytes[i]
  {
    var r := Placed(bytes, off, v, stamp);
    ReadAfterWrite(bytes[off := v][..AREA], stamp, bytes[AREA + 4..]);
  }

  /** What `savePNG` needs of a chunk: every pixel byte can be read and names a palette
      entry. */
  predicate Renderable(bytes: seq<uint8>, colors: int)
  {
    AREA <= |bytes| && forall i :: 0 <= i < AREA ==> bytes[i] < colors
  }

  /** Offset of component k of pixel (x, y) in the RGB raster, three bytes per pixel. */
  function RasterOffset(x: int, y: int, k: int): (off: int)
    requires 0 <= x < CHUNK_SIZE && 0 <= y < CHUNK_SIZE && 0 <= k < 3
    ensures 0 <= off < 3 * AREA
  {
    y * (CHUNK_SIZE * 3) + x * 3 + k
  }

  /** Every component of every pixel has its own raster byte, and every raster byte belongs
      to one of them. */
  lemma RasterOffsetBijective(x: int, y: int, k: int, x2: int, y2: int, k2: int, off: int)
    requires 0 <= x < CHUNK_SIZE && 0 <= y < CHUNK_SIZE && 0 <= k < 3
    requires 0 <= x2 < CHUNK_SIZE && 0 <= y2 < CHUNK_SIZE && 0 <= k2 < 3
    requires 0 <= off < 3 * AREA
    ensures RasterOffset(x, y, k) == RasterOffset(x2, y2, k2) ==> x == x2 && y == y2 && k == k2
    ensures RasterOffset((off % (3 * CHUNK_SIZE)) / 3, off / (3 * CHUNK_SIZE), off % 3) == off
  {
  }

  /** The raster `savePNG` fills: component k of pixel (x, y) is component k of the palette
      colour the chunk holds at (x, y). */
  predicate IsRaster(raster: seq<uint8>, bytes: seq<uint8>, palette: seq<Rgb>)
    requires Renderable(bytes, |palette|)
  {
    |raster| == 3 * AREA &&
    forall x, y, k :: 0 <= x < CHUNK_SIZE && 0 <= y < CHUNK_SIZE && 0 <= k < 3 ==>
      raster[RasterOffset(x, y, k)] == palette[bytes[PixelOffset(x, y)]].Component(k)
  }

  /** The nested loops of `savePNG`, columns outside and rows inside. A byte outside the
      buffer makes `readUint8` throw, and an index past the palette makes `COLORS_PNG[v]`
      undefined so that reading its components throws; either stops the fill. */
  method RenderChunk(chunk: array<uint8>, palette: seq<Rgb>) returns (raster: array<uint8>, ok: bool)
    ensures ok <==> Renderable(chunk[..], |palette|)
    ensures ok ==> IsRaster(raster[..], chunk[..], palette)
  {
    raster := new uint8[3 * AREA](_ => 0);
    var x := 0;
    while x < CHUNK_SIZE
      invariant 0 <= x <= CHUNK_SIZE && raster.Length == 3 * AREA
      invariant forall i, j :: 0 <= i < x && 0 <= j < CHUNK_SIZE ==>
        PixelOffset(i, j) < chunk.Length && chunk[PixelOffset(i, j)] < |palette|
      invariant forall i, j, k :: 0 <= i < x && 0 <= j < CHUNK_SIZE && 0 <= k < 3 ==>
        raster[RasterOffset(i, j, k)] == palette[chunk[PixelOffset(i, j)]].Component(k)
    {
      var y := 0;
      while y < CHUNK_SIZE
        invariant 0 <= y <= CHUNK_SIZE
        invariant forall i, j :: (0 <= i < x && 0 <= j < CHUNK_SIZE) || (i == x && 0 <= j < y) ==>
          PixelOffset(i, j) < chunk.Length && chunk[PixelOffset(i, j)] < |palette|
        invariant forall i, j, k :: ((0 <= i < x && 0 <= j < CHUNK_SIZE) || (i == x && 0 <= j < y)) && 0 <= k < 3 ==>
          raster[RasterOffset(i, j, k)] == palette[chunk[PixelOffset(i, j)]].Component(k)
      {
        var off := PixelOffset(x, y);
        if off >= chunk.Length || chunk[off] >= |palette| {
          ok := false;
          assert !Renderable(chunk[..], |palette|) by {
            if AREA <= chunk.Length {
              assert chunk[..][off] >= |palette|;
            }
          }
          return;
        }
        var clr := palette[chunk[off]];
        var idx := RasterOffset(x, y, 0);
        raster[idx] := clr.Component(0);
        raster[idx + 1] := clr.Component(1);
        raster[idx + 2] := clr.Component(2);
        forall i, j, k | ((0 <= i < x && 0 <= j < CHUNK_SIZE) || (i == x && 0 <= j <= y)) && 0 <= k < 3
          ensures raster[RasterOffset(i, j, k)] == palette[chunk[PixelOffset(i, j)]].Component(k)
        {
          RasterOffsetBijective(i, j, k, x, y, 0, 0);
          RasterOffsetBijective(i, j, k, x, y, 1, 0);
          RasterOffsetBijective(i, j, k, x, y, 2, 0);
        }
        y := y + 1;
      }
      x := x + 1;
    }
    ok := true;
    assert AREA <= chunk.Length by {
      assert PixelOffset(CHUNK_SIZE - 1, CHUNK_SIZE - 1) == AREA - 1;
    }
    forall i | 0 <= i < AREA ensures chunk[..][i] < |palette| {
      PixelOffsetBijective(0, 0, 0, 0, i);
    }
  }

  /** A grid of chunk buffers, `CHUNKS[x][y]`, with `cols` columns of `rows` chunks. */
  class ChunkGrid {
    const cols: nat
    const rows: nat
    var chunks: seq<seq<array<uint8>>>

    /** The grid has its shape and no two cells share a buffer. */
    ghost predicate Valid()
      reads this
    {
      |chunks| == cols &&
      (forall x :: 0 <= x < cols ==> |chunks[x]| == rows) &&
      (forall x1, y1, x2, y2 ::
        0 <= x1 < cols && 0 <= y1 < rows && 0 <= x2 < cols && 0 <= y2 < rows &&
        chunks[x1][y1] == chunks[x2][y2]
        ==> x1 == x2 && y1 == y2)
    }

    ghost function Repr(): set<array<uint8>>
      reads this
    {
      set x, y | 0 <= x < |chunks| && 0 <= y < |chunks[x]| :: chunks[x][y]
    }

    /** The bytes of every chunk. */
    ghost function Contents(): (c: seq<seq<seq<uint8>>>)
      reads this, Repr()
      ensures |c| == |chunks|
      ensures forall x :: 0 <= x < |chunks| ==> |c[x]| == |chunks[x]|
      ensures forall x, y :: 0 <= x < |chunks| && 0 <= y < |chunks[x]| ==> c[x][y] == chunks[x][y][..]
    {
      seq(|chunks|, x requires 0 <= x < |chunks| reads this, Repr() =>
        seq(|chunks[x]|, y requires 0 <= x < |chunks| && 0 <= y < |chunks[x]| reads this, Repr() =>
          chunks[x][y][..]))
    }

    /** Contents are determined by the bytes of the cells. */
    lemma ContentsAre(c: seq<seq<seq<uint8>>>)
      requires Valid() && |c| == cols && forall x :: 0 <= x < cols ==> |c[x]| == rows
      requires forall x, y :: 0 <= x < cols && 0 <= y < rows ==> chunks[x][y][..] == c[x][y]
      ensures Contents() == c
    {
      var d := Contents();
      forall x | 0 <= x < cols ensures d[x] == c[x] {
        assert |d[x]| == |c[x]|;
      }
    }

    /** `Buffer.alloc(len)` for every cell, column by column: zero-filled and distinct. */
    constructor (cols: nat, rows: nat, len: nat)
      ensures Valid() && this.cols == cols && this.rows == rows && fresh(Repr())
      ensures Contents() == seq(cols, _ => seq(rows, _ => Zeros(len)))
    {
      this.cols := cols;
      this.rows := rows;
      var cs: seq<seq<array<uint8>>> := [];
      var x := 0;
      while x < cols
        invariant 0 <= x <= cols && |cs| == x
        invariant forall i :: 0 <= i < x ==> |cs[i]| == rows
        invariant forall i, j :: 0 <= i < x && 0 <= j < rows ==>
          fresh(cs[i][j]) && cs[i][j][..] == Zeros(len)
        invariant forall i1, j1, i2, j2 ::
          0 <= i1 < x && 0 <= j1 < rows && 0 <= i2 < x && 0 <= j2 < rows &&
          cs[i1][j1] == cs[i2][j2]
          ==> i1 == i2 && j1 == j2
      {
        var col: seq<array<uint8>> := [];
        var y := 0;
        while y < rows
          invariant 0 <= y <= rows && |col| == y
          invariant forall j :: 0 <= j < y ==> fresh(col[j]) && col[j][..] == Zeros(len)
          invariant forall i, j :: 0 <= i < x && 0 <= j < rows ==>
            fresh(cs[i][j]) && cs[i][j][..] == Zeros(len)
          invariant forall j1, j2 :: 0 <= j1 < y && 0 <= j2 < y && col[j1] == col[j2] ==> j1 == j2
          invariant forall j, i, j2 :: 0 <= j < y && 0 <= i < x && 0 <= j2 < rows ==> col[j] != cs[i][j2]
        {
          var a := new uint8[len](_ => 0);
          assert a[..] == Zeros(len);
          col := col + [a];
          y := y + 1;
        }
        cs := cs + [col];
        x := x + 1;
      }
      chunks := cs;
      new;
      var target: seq<seq<seq<uint8>>> := seq(cols, _ => seq(rows, _ => Zeros(len)));
      var c := Contents();
      forall i | 0 <= i < cols ensures c[i] == target[i] {
        forall j | 0 <= j < rows ensures c[i][j] == target[i][j] {
        }
        assert |c[i]| == |target[i]|;
      }
      assert |c| == |target|;
      assert c == target;
    }

    /** `chunk.writeUInt8(v, off)` and then `chunk.writeUint32LE(stamp, AREA)` on chunk
      (cX, cY). Each call throws on a value or offset Node rejects; a throw after the
      first call leaves the pixel written. No other chunk changes. */
    method WritePixel(cX: nat, cY: nat, off: int, v: Num, stamp: int) returns (written: bool)
      requires Valid() && cX < cols && cY < rows && 0 <= off < AREA
      modifies chunks[cX][cY]
      ensures written <==>
        (v.NaN? || 0 <= v.value < 256) && off < |old(chunks[cX][cY][..])| &&
        0 <= stamp < TWO32 && AREA + 4 <= |old(chunks[cX][cY][..])|
      ensures written ==>
        chunks[cX][cY][..] == Placed(old(chunks[cX][cY][..]), off, if v.NaN? then 0 else v.value, stamp)
      ensures !written && (v.NaN? || 0 <= v.value < 256) && off < |old(chunks[cX][cY][..])| ==>
        chunks[cX][cY][..] == old(chunks[cX][cY][..])[off := if v.NaN? then 0 else v.value]
      ensures !((v.NaN? || 0 <= v.value < 256) && off < |old(chunks[cX][cY][..])|) ==>
        chunks[cX][cY][..] == old(chunks[cX][cY][..])
      ensures forall x, y :: 0 <= x < cols && 0 <= y < rows && (x != cX || y != cY) ==>
        chunks[x][y][..] == old(chunks[x][y][..])
    {
      var a := chunks[cX][cY];
      var ok := WriteUInt8(a, v, off);
      if !ok {
        return false;
      }
      written := WriteUInt32LE(a, stamp, AREA);
    }

    /** `CHUNKS[x][y] = buffer`: the cell now holds a new buffer with the given bytes. */
    method Replace(x: nat, y: nat, data: seq<uint8>)
      requires Valid() && x < cols && y < rows
      modifies this
      ensures Valid() && fresh(chunks[x][y]) && chunks[x][y][..] == data
      ensures forall i, j :: 0 <= i < cols && 0 <= j < rows && (i != x || j != y) ==>
        chunks[i][j] == old(chunks[i][j])
      ensures Contents() == old(Contents())[x := old(Contents())[x][y := data]]
    {
      var a := new uint8[|data|](i requires 0 <= i < |data| => data[i]);
      assert a[..] == data;
      chunks := chunks[x := chunks[x][y := a]];
      var c, c0 := Contents(), old(Contents());
      var target := c0[x := c0[x][y := data]];
      forall i | 0 <= i < cols ensures c[i] == target[i] {
        forall j | 0 <= j < rows ensures c[i][j] == target[i][j] {
          if i != x || j != y {
            assert chunks[i][j] == old(chunks[i][j]);
          }
        }
        assert |c[i]| == |target[i]|;
      }
      assert |c| == |target|;
      assert c == target;
    }
  }
}
