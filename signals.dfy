/**
 * Digital line levels, the output pins the firmware drives, and the bit
 * helpers shared by the SRAM driver and the LED-strip streamer.
 */
module Signals {

  /** The level of one digital line. */
  datatype Level = Low | High

  function LevelOf(b: bool): (l: Level)
    ensures l == High <==> b
  {
    if b then High else Low
  }

  /**
   * The output lines the firmware drives: on port 2 the 23K256's HOLD, SCK
   * (SRAM_CLK), SI (SRAM_OUT) and CS lines; on port 1 the LPD8806 strip's
   * DATA and CLOCK lines.
   */
  datatype Pins = Pins(sramHold: Level, sramClk: Level, sramOut: Level, sramCs: Level,
                       data: Level, clock: Level)

  /** The single-bit mask of bit k, counting from the most significant bit: 0x80 shifted right k times. */
  function Mask(k: nat): bv8
  {
    if k == 0 then 0x80 else Mask(k - 1) >> 1
  }

  /** Bit k of x, counting from the most significant bit. */
  function BitAt(x: bv8, k: nat): Level
    requires k < 8
  {
    LevelOf(x & Mask(k) != 0)
  }

  /** The eight bits of a byte in the order they go on the wire. */
  function MsbFirst(x: bv8): (s: seq<Level>)
    ensures |s| == 8
    ensures forall k | 0 <= k < 8 :: s[k] == BitAt(x, k)
  {
    seq(8, k requires 0 <= k < 8 => BitAt(x, k))
  }

  /** The bits of a sequence of bytes, byte after byte, each most significant bit first. */
  function Frame(bytes: seq<bv8>): (s: seq<Level>)
    ensures |s| == 8 * |bytes|
  {
    if bytes == [] then [] else Frame(bytes[..|bytes| - 1]) + MsbFirst(bytes[|bytes| - 1])
  }

  /** n zero bits. */
  function Zeros(n: nat): (s: seq<Level>)
    ensures |s| == n
    ensures forall i | 0 <= i < n :: s[i] == Low
  {
    seq(n, _ => Low)
  }

  function Lo(x: bv16): bv8 { (x & 0xFF) as bv8 }

  /** Bit j of a byte's frame is bit j % 8 of byte j / 8. */
  lemma {:induction false} FrameAt(bytes: seq<bv8>, j: nat)
    requires j < 8 * |bytes|
    ensures Frame(bytes)[j] == BitAt(bytes[j / 8], j % 8)
    decreases |bytes|
  {
    var n := |bytes| - 1;
    if j < 8 * n {
      FrameAt(bytes[..n], j);
    }
  }

  /** Framing distributes over concatenation. */
  lemma {:induction false} FrameAppend(a: seq<bv8>, b: seq<bv8>)
    ensures Frame(a + b) == Frame(a) + Frame(b)
    decreases |b|
  {
    if b == [] {
      assert a + b == a;
    } else {
      var n := |b| - 1;
      assert (a + b)[..|a + b| - 1] == a + b[..n];
      FrameAppend(a, b[..n]);
    }
  }

  /** Bit k is a single bit; after eight shifts the mask is zero. */
  lemma MaskTables(k: nat)
    requires k <= 8
    ensures OneBit(Mask(k))
    ensures Mask(k) != 0 <==> k < 8
  {
    if k == 0 {
    } else if k == 1 {
      assert Mask(1) == 0x40;
    } else if k == 2 {
      assert Mask(2) == 0x20;
    } else if k == 3 {
      assert Mask(3) == 0x10;
    } else if k == 4 {
      assert Mask(4) == 0x08;
    } else if k == 5 {
      assert Mask(5) == 0x04;
    } else if k == 6 {
      assert Mask(6) == 0x02;
    } else if k == 7 {
      assert Mask(7) == 0x01;
    } else {
      assert Mask(8) == 0x00;
    }
  }

  /** A mask with at most one bit set. */
  predicate OneBit(m: bv8)
  {
    m & (m - 1) == 0
  }

  /** The bits at and below the bit of a one-bit mask (none for the zero mask). */
  function Below(m: bv8): bv8
  {
    if m == 0 then 0 else m | (m - 1)
  }

  /** Shifting a one-bit mask right leaves a one-bit mask covering the bits below it. */
  lemma BelowShift(m: bv8)
    requires OneBit(m) && m != 0
    ensures OneBit(m >> 1)
    ensures Below(m) == m | Below(m >> 1) && m & Below(m >> 1) == 0
  {
  }

  /** x with its bits above the one-bit mask m replaced by those of v: a bit-by-bit read of v into x that has reached m. */
  function Overlay(v: bv8, x: bv8, m: bv8): bv8
  {
    (x & Below(m)) | (v & !Below(m))
  }

  /** Setting or clearing bit m as v has it takes a read one bit further. */
  lemma OverlayStep(v: bv8, x: bv8, m: bv8)
    requires OneBit(m) && m != 0
    ensures v & m != 0 ==> Overlay(v, x, m) | m == Overlay(v, x, m >> 1)
    ensures v & m == 0 ==> Overlay(v, x, m) & !m == Overlay(v, x, m >> 1)
  {
    BelowShift(m);
  }

  /** A read starting at the top bit has changed nothing yet; one that has passed bit 0 has read all of v. */
  lemma OverlayEnds(v: bv8, x: bv8)
    ensures Overlay(v, x, 0x80) == x
    ensures Overlay(v, x, 0) == v
  {
  }

  /** Appending pieces one at a time is appending their concatenation. */
  lemma Append2<T>(t: seq<T>, a: seq<T>, b: seq<T>)
    ensures t + a + b == t + (a + b)
  {
  }

  lemma Append3<T>(t: seq<T>, a: seq<T>, b: seq<T>, c: seq<T>)
    ensures t + a + b + c == t + (a + b + c)
  {
  }

  lemma Append4<T>(t: seq<T>, a: seq<T>, b: seq<T>, c: seq<T>, d: seq<T>)
    ensures t + a + b + c + d == t + (a + b + c + d)
  {
  }

  /** The front of a sequence with one element appended is the sequence. */
  lemma Snoc<T>(s: seq<T>, x: T)
    ensures (s + [x])[..|s|] == s && (s + [x])[|s|] == x
  {
  }

  lemma Append5<T>(t: seq<T>, a: seq<T>, b: seq<T>, c: seq<T>, d: seq<T>, e: seq<T>)
    ensures t + a + b + c + d + e == t + (a + b + c + d + e)
  {
  }
}
