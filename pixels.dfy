/**
 * The pixel and colour arithmetic of the LED-matrix firmware: the
 * serpentine mapping of an 8 x 32 grid onto the strip, the packing of a
 * colour into the LPD8806's G, R, B byte order with bit 7 of every channel
 * set, and the colour wheel.
 *
 * `unsigned int` is 16 bits wide on the MSP430 and is modelled as bv16,
 * `unsigned long` (32 bits) as bv32 and `unsigned char` as bv8, so the C
 * wrap-around is the bit-vector arithmetic's own.
 */
module Pixels {

  /** ROWS and COLS, the grid's height and width. */
  const Rows: bv16 := 8
  const Cols: bv16 := 32
  /** NUMLEDS: one LED per grid cell. */
  const NumLeds: bv16 := Rows * Cols
  /** Three colour bytes per LED: the frame held in the SRAM from address 0. */
  const FrameBytes: bv16 := NumLeds * 3

  // ---------------------------------------------------------------------------
  // The serpentine index

  /** calcIndex: odd rows run right to left. */
  function CalcIndex(col: bv16, row: bv16): (n: bv16)
    ensures row < Rows && col < Cols ==> n < NumLeds && n / Cols == row
  {
    var c := if row % 2 == 1 then Cols - col - 1 else col;
    Cols * row + c
  }

  /** The strip position of a grid cell: rows one after another, every second one reversed. */
  function Serpentine(col: nat, row: nat): (n: nat)
    requires col < Cols as int
    ensures row < Rows as int ==> n < NumLeds as int
  {
    if row % 2 == 0 then Cols as int * row + col else Cols as int * row + (Cols as int - 1 - col)
  }

  /** The row of a strip position. */
  function RowOf(n: nat): nat
  {
    n / Cols as int
  }

  /** The column of a strip position. */
  function ColOf(n: nat): (c: nat)
    ensures c < Cols as int
  {
    if RowOf(n) % 2 == 0 then n % Cols as int else Cols as int - 1 - n % Cols as int
  }

  /** On the grid, calcIndex is the serpentine position and lies on the strip. */
  lemma CalcIndexSerpentine(col: bv16, row: bv16)
    requires row < Rows && col < Cols
    ensures CalcIndex(col, row) as int == Serpentine(col as int, row as int)
    ensures CalcIndex(col, row) < NumLeds
  {
  }

  /** Row and column recover the grid cell of a serpentine position. */
  lemma SerpentineInverse(col: nat, row: nat)
    requires col < Cols as int && row < Rows as int
    ensures RowOf(Serpentine(col, row)) == row && ColOf(Serpentine(col, row)) == col
  {
    var n := Serpentine(col, row);
    var k := if row % 2 == 0 then col else Cols as int - 1 - col;
    assert n == Cols as int * row + k && 0 <= k < Cols as int;
    assert n / Cols as int == row && n % Cols as int == k;
  }

  /** Every strip position is the serpentine position of a grid cell. */
  lemma SerpentineOnto(n: nat)
    requires n < NumLeds as int
    ensures RowOf(n) < Rows as int
    ensures Serpentine(ColOf(n), RowOf(n)) == n
  {
    var row, k := n / Cols as int, n % Cols as int;
    assert n == Cols as int * row + k;
  }

  /** calcIndex is one-to-one on the grid: the position gives back the row and the column. */
  lemma CalcIndexInverse(col: bv16, row: bv16)
    requires row < Rows && col < Cols
    ensures var n := CalcIndex(col, row);
            n / Cols == row && (if row % 2 == 1 then Cols - 1 - n % Cols else n % Cols) == col
  {
  }

  /** Two grid cells share a strip position only if they are the same cell. */
  lemma CalcIndexInjective(c1: bv16, r1: bv16, c2: bv16, r2: bv16)
    requires r1 < Rows && c1 < Cols && r2 < Rows && c2 < Cols
    ensures CalcIndex(c1, r1) == CalcIndex(c2, r2) <==> c1 == c2 && r1 == r2
  {
    CalcIndexInverse(c1, r1);
    CalcIndexInverse(c2, r2);
  }

  // ---------------------------------------------------------------------------
  // Colours

  /** The three channel bytes of a colour. */
  datatype Rgb = Rgb(r: bv8, g: bv8, b: bv8)

  /** The bits the LPD8806 requires set: bit 7 of each of the three channel bytes. */
  const Marker: bv32 := 0x808080

  /** color: green in byte 2, red in byte 1, blue in byte 0, bit 7 of each set. */
  function Color(r: bv8, g: bv8, b: bv8): (c: bv32)
    ensures c & Marker == Marker && c >> 24 == 0
  {
    Marker | ((g as bv32) << 16) | ((r as bv32) << 8) | (b as bv32)
  }

  /** colorHex: a packed value with the marker bits forced on. */
  function ColorHex(hex: bv32): (c: bv32)
    ensures c & Marker == Marker
    ensures c & !Marker == hex & !Marker
  {
    Marker | hex
  }

  /** The channel extraction of setPixelS: `c >> 16`, `c >> 8` and `c` cut to unsigned char. */
  function Channels(c: bv32): (r: Rgb)
    ensures ((r.g as bv32) << 16) | ((r.r as bv32) << 8) | (r.b as bv32) == c & 0xFF_FFFF
  {
    Rgb(((c >> 8) & 0xFF) as bv8, ((c >> 16) & 0xFF) as bv8, (c & 0xFF) as bv8)
  }

  /** A channel byte as the strip takes it: bit 7 set, the low seven bits kept. */
  function Mark(x: bv8): (m: bv8)
    ensures m & 0x80 == 0x80 && m & 0x7F == x & 0x7F
  {
    0x80 | x
  }

  /** The three bytes setPixel sends for a pixel: G, R, B, each with bit 7 set. */
  function PixelBytes(c: Rgb): (s: seq<bv8>)
    ensures |s| == 3
    ensures forall i | 0 <= i < 3 :: s[i] & 0x80 == 0x80
    ensures s[0] & 0x7F == c.g & 0x7F && s[1] & 0x7F == c.r & 0x7F && s[2] & 0x7F == c.b & 0x7F
  {
    [Mark(c.g), Mark(c.r), Mark(c.b)]
  }

  /** Unpacking a packed colour gives back its channels with bit 7 set. */
  lemma ChannelsColor(r: bv8, g: bv8, b: bv8)
    ensures Channels(Color(r, g, b)) == Rgb(Mark(r), Mark(g), Mark(b))
  {
  }

  /** Packing the unpacked channels of a 24-bit value is colorHex of it. */
  lemma ColorChannels(hex: bv32)
    requires hex >> 24 == 0
    ensures var c := Channels(hex); Color(c.r, c.g, c.b) == ColorHex(hex)
  {
  }

  /** The marker is idempotent: colorHex leaves a packed colour alone. */
  lemma ColorHexColor(r: bv8, g: bv8, b: bv8)
    ensures ColorHex(Color(r, g, b)) == Color(r, g, b)
  {
  }

  /** setPixelS of color(r, g, b) sends the bytes setPixel(r, g, b) sends: setting bit 7 twice sets it once. */
  lemma PixelBytesColor(r: bv8, g: bv8, b: bv8)
    ensures PixelBytes(Channels(Color(r, g, b))) == PixelBytes(Rgb(r, g, b))
  {
    ChannelsColor(r, g, b);
    MarkTwice(r);
    MarkTwice(g);
    MarkTwice(b);
  }

  /** Only the low seven bits of a channel reach the strip: two colours send the same bytes exactly when those agree. */
  lemma PixelBytesSame(c: Rgb, e: Rgb)
    ensures PixelBytes(c) == PixelBytes(e) <==>
              c.r & 0x7F == e.r & 0x7F && c.g & 0x7F == e.g & 0x7F && c.b & 0x7F == e.b & 0x7F
  {
    var s, t := PixelBytes(c), PixelBytes(e);
    MarkSame(c.r, e.r);
    MarkSame(c.g, e.g);
    MarkSame(c.b, e.b);
    if c.r & 0x7F == e.r & 0x7F && c.g & 0x7F == e.g & 0x7F && c.b & 0x7F == e.b & 0x7F {
      assert s == t;
    } else {
      assert s[0] != t[0] || s[1] != t[1] || s[2] != t[2];
    }
  }

  /** Setting bit 7 of two bytes makes them equal exactly when their low seven bits agree. */
  lemma MarkSame(x: bv8, y: bv8)
    ensures Mark(x) == Mark(y) <==> x & 0x7F == y & 0x7F
  {
  }

  /** Setting bit 7 twice sets it once. */
  lemma MarkTwice(x: bv8)
    ensures Mark(Mark(x)) == Mark(x)
  {
  }

  // ---------------------------------------------------------------------------
  // The colour wheel

  /**
   * The channels wheel passes to color. The C products `wheelpos * 3` and
   * `255 - wheelpos * 3` are `int`s cut to `unsigned char` at the call,
   * which is arithmetic modulo 256, as bv8 arithmetic is.
   */
  function WheelRgb(w: bv8): (c: Rgb)
    ensures c.r == 0 || c.g == 0 || c.b == 0
    ensures c.r as int + c.g as int + c.b as int == 255
  {
    if w <= 85 then Rgb(w * 3, 255 - w * 3, 0)
    else if w < 170 then Rgb(255 - w * 3, 0, w * 3)
    else var v := w - 170; Rgb(0, v * 3, 255 - v * 3)
  }

  /** wheel: a hue from 0 to 255 as a packed colour. */
  function Wheel(w: bv8): (c: bv32)
    ensures c & Marker == Marker && c >> 24 == 0
  {
    var rgb := WheelRgb(w);
    Color(rgb.r, rgb.g, rgb.b)
  }

  /**
   * The three bands of the wheel: red rises against green, then blue
   * against red, then green against blue; the two active channels always
   * add up to 255 and the third is off.
   */
  lemma WheelBands(w: bv8)
    ensures var c := WheelRgb(w);
      && (w <= 85 ==> c.b == 0 && c.r as int == 3 * w as int && c.r as int + c.g as int == 255)
      && (85 < w < 170 ==> c.g == 0 && c.b as int == 3 * w as int - 256 && c.r as int + c.b as int == 255)
      && (170 <= w ==> c.r == 0 && c.g as int == 3 * (w as int - 170) && c.g as int + c.b as int == 255)
  {
  }

  /** The ends and the band edges of the wheel: pure green, red and blue, and all the way round back to green. */
  lemma WheelFixedPoints()
    ensures Wheel(0) == Color(0, 255, 0) && Wheel(255) == Color(0, 255, 0)
    ensures Wheel(85) == Color(255, 0, 0)
    ensures Wheel(170) == Color(0, 0, 255)
  {
  }
}
