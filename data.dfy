/** The shared constants of server/data.ts: the epoch the chunk trailers count from, the
    cooldown, the chunk geometry and the 32-colour palette with its RGB table. */
module Data {
  import opened Js
  import opened Util

  /** Trailer times are stored as seconds since this Unix time. */
  const EPOCH_BASE: int := 1649000000
  /** Seconds a user waits between two placements. */
  const TIMEOUT: int := 60
  /** Side of a square chunk, in pixels. */
  const CHUNK_SIZE: int := 128
  /** Width of the modification-time trailer after the pixel bytes. */
  const MOD_SIZE: int := 4
  const USER_SIZE: int := 16
  const WIDTH: int := CHUNK_SIZE * 2
  const HEIGHT: int := CHUNK_SIZE * 2

  /** Number of chunk columns and rows, `WIDTH / CHUNK_SIZE` and `HEIGHT / CHUNK_SIZE`. */
  const COLS: int := 2
  const ROWS: int := 2

  const COLORS: seq<string> := [
    "#ffffff", "#d4d7d9", "#898d90", "#515252", "#000000", "#ffb470", "#9c6926", "#6d482f",
    "#ff99aa", "#ff3881", "#de107f", "#e4abff", "#b44ac0", "#811e9f", "#94b3ff", "#6a5cff",
    "#493ac1", "#51e9f4", "#3690ea", "#2450a4", "#00ccc0", "#009eaa", "#00756f", "#7eed56",
    "#00cc78", "#00a368", "#fff8b8", "#ffd635", "#ffa800", "#ff4500", "#be0039", "#6d001a"
  ]

  /** Every entry of a palette is a colour `hexToRgb` accepts. */
  predicate ParsablePalette(colors: seq<string>)
  {
    forall c :: 0 <= c < |colors| ==> IsHexColor(colors[c])
  }

  /** The palette has 32 entries, each '#' and six lower-case hexadecimal digits. */
  lemma PaletteSpelling()
    ensures |COLORS| == 32
    ensures forall c :: 0 <= c < |COLORS| ==> IsLowerHexColor(COLORS[c])
  {
    forall c | 0 <= c < |COLORS| ensures IsLowerHexColor(COLORS[c]) {
      var h := COLORS[c];
      assert |h| == 7 && h[0] == '#';
      forall i | 1 <= i < 7 ensures IsHexDigit(h[i]) && !('A' <= h[i] <= 'F') {
      }
    }
  }

  lemma PaletteParsable()
    ensures ParsablePalette(COLORS)
  {
    PaletteSpelling();
    forall c | 0 <= c < |COLORS| ensures IsHexColor(COLORS[c]) {
      RgbToHexOfHexToRgb(COLORS[c]);
    }
  }

  /** The loop `for (c = 0; c < COLORS.length; c++) COLORS_PNG[c] = hexToRgb(COLORS[c])`,
      starting from an empty table. */
  method BuildColorsPng(colors: seq<string>) returns (png: seq<Rgb>)
    requires ParsablePalette(colors)
    ensures |png| == |colors|
    ensures forall c :: 0 <= c < |colors| ==> png[c] == HexToRgb(colors[c])
  {
    png := [];
    var c := 0;
    while c < |colors|
      invariant 0 <= c <= |colors| && |png| == c
      invariant forall k :: 0 <= k < c ==> png[k] == HexToRgb(colors[k])
    {
      png := png + [HexToRgb(colors[c])];
      c := c + 1;
    }
  }

  /** The table the loop produces, for use in functions and lemmas. */
  function PaletteRgb(colors: seq<string>): (png: seq<Rgb>)
    requires ParsablePalette(colors)
  {
    seq(|colors|, c requires 0 <= c < |colors| => HexToRgb(colors[c]))
  }

  /** `COLORS_PNG` of data.ts. */
  function ColorsPng(): seq<Rgb>
  {
    PaletteParsable();
    PaletteRgb(COLORS)
  }

  /** Each RGB entry spells back exactly the palette string it came from, so the table
      loses nothing and two palette indices map to the same colour only if their strings are
      equal. */
  lemma ColorsPngSpelledBack()
    ensures |ColorsPng()| == |COLORS| == 32
    ensures forall c :: 0 <= c < |COLORS| ==> RgbToHex(ColorsPng()[c]) == COLORS[c]
  {
    PaletteSpelling();
    forall c | 0 <= c < |COLORS| ensures RgbToHex(ColorsPng()[c]) == COLORS[c] {
      RgbToHexOfHexToRgb(COLORS[c]);
    }
  }

  /** Index 0, which a zero-filled chunk holds everywhere, is white. */
  lemma ZeroIsWhite()
    ensures ColorsPng()[0] == Rgb(255, 255, 255)
  {
    PaletteSpelling();
    assert COLORS[0] == "#ffffff";
    var d := COLORS[0][1..];
    assert d[0] == 'f' && d[1] == 'f' && d[2] == 'f' && d[3] == 'f' && d[4] == 'f' && d[5] == 'f';
  }
}
