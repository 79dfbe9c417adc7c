/**
 * The LED-strip side of the firmware: the latch of zero bits, the
 * start-up sequence, the streaming of the frame held in the 23K256 onto the
 * LPD8806 strip, the pixel writes into that frame, and the colour wipe.
 * DATA and CLOCK are bits 7 and 6 of port 1; the strip clocks DATA in on
 * every rising CLOCK edge.
 */
module Strip {
  import opened Signals
  import opened Sram23K256
  import opened Hardware
  import opened SramDriver
  import opened Pixels

  /** The latch length in bytes: 3 * ((NUMLEDS + 63) / 64). */
  const LatchBytes: bv16 := 3 * ((NumLeds + 63) / 64)

  /** The latch is 96 zero bits. */
  lemma LatchLength()
    ensures (8 * LatchBytes) as int == 96
  {
  }

  // ---------------------------------------------------------------------------
  // The strip's lines

  /** P1OUT |= DATA or P1OUT &= ~DATA. */
  method SetData(b: Board, bit: bool)
    requires b.Valid()
    modifies b
    ensures b.Valid()
    ensures b.pins == old(b.pins).(data := LevelOf(bit))
    ensures b.sram == old(b.sram)
    ensures b.strip == old(b.strip)
    ensures b.trace == old(b.trace) + [old(b.pins).(data := LevelOf(bit))]
  {
    StepQuiet(b.sram, b.pins, b.pins.(data := LevelOf(bit)));
    if bit {
      b.Write(b.pins.(data := High));
    } else {
      b.Write(b.pins.(data := Low));
    }
  }

  /** P1OUT &= ~CLOCK. */
  method ClockLow(b: Board)
    requires b.Valid()
    modifies b
    ensures b.Valid()
    ensures b.pins == old(b.pins).(clock := Low)
    ensures b.sram == old(b.sram)
    ensures b.strip == old(b.strip)
    ensures b.trace == old(b.trace) + [old(b.pins).(clock := Low)]
  {
    StepQuiet(b.sram, b.pins, b.pins.(clock := Low));
    b.Write(b.pins.(clock := Low));
  }

  /** P1OUT |= CLOCK: on a rising edge the strip takes the level of DATA. */
  method ClockHigh(b: Board)
    requires b.Valid()
    modifies b
    ensures b.Valid()
    ensures b.pins == old(b.pins).(clock := High)
    ensures b.sram == old(b.sram)
    ensures b.strip == old(b.strip) + (if old(b.pins.clock) == Low then [old(b.pins.data)] else [])
    ensures b.trace == old(b.trace) + [old(b.pins).(clock := High)]
  {
    StepQuiet(b.sram, b.pins, b.pins.(clock := High));
    b.Write(b.pins.(clock := High));
  }

  // ---------------------------------------------------------------------------
  // The latch

  /** The zero bits k CLOCK pulses with DATA low clock in: the first pulse is no edge when CLOCK starts high. */
  function Latched(clock: Level, k: nat): (n: nat)
    ensures clock == High && k > 0 ==> n == k - 1
    ensures clock == Low || k == 0 ==> n == k
  {
    if clock == High && k > 0 then k - 1 else k
  }

  /** Port writes of k CLOCK pulses from pins p. */
  function ZeroEvents(p: Pins, k: nat): seq<Pins>
  {
    if k == 0 then [] else ZeroEvents(p, k - 1) + [p.(clock := High), p.(clock := Low)]
  }

  /** One zero more is one Low more. */
  lemma ZerosNext(n: nat)
    ensures Zeros(n) + [Low] == Zeros(n + 1)
  {
  }

  /** The state of writezeros's loop from pins p (DATA low) once j pulses are done. */
  ghost predicate Zeroing(b: Board, d: Device, p: Pins, t: seq<Pins>, s: seq<Level>, j: nat)
    reads b
  {
    && b.Valid() && b.sram == d
    && b.pins == (if j == 0 then p else p.(clock := Low))
    && b.strip == s + Zeros(Latched(p.clock, j))
    && b.trace == t + ZeroEvents(p, j)
  }

  /** One pass of writezeros's loop: CLOCK high, CLOCK low. */
  method ZeroPulse(b: Board, ghost d: Device, ghost p: Pins, ghost t: seq<Pins>, ghost s: seq<Level>, ghost j: nat)
    requires p.data == Low && Zeroing(b, d, p, t, s, j)
    modifies b
    ensures Zeroing(b, d, p, t, s, j + 1)
  {
    ClockHigh(b);
    ClockLow(b);
    ZerosNext(Latched(p.clock, j));
    Append2(t, ZeroEvents(p, j), [p.(clock := High), p.(clock := Low)]);
  }

  /**
   * writezeros: DATA low, then 8 * n CLOCK pulses, the count taken modulo
   * 2^16 like the `unsigned int` it is computed in (the counter never
   * wraps, as it only counts down to zero). The strip takes one
   * zero per rising edge; CLOCK ends low unless there was no pulse.
   */
  method WriteZeros(b: Board, n: bv16)
    requires b.Valid()
    modifies b
    ensures b.Valid()
    ensures b.pins == old(b.pins).(data := Low, clock := if 8 * n == 0 then old(b.pins.clock) else Low)
    ensures b.sram == old(b.sram)
    ensures b.strip == old(b.strip) + Zeros(Latched(old(b.pins.clock), (8 * n) as int))
    ensures b.trace == old(b.trace) + [old(b.pins).(data := Low)] + ZeroEvents(old(b.pins).(data := Low), (8 * n) as int)
  {
    SetData(b, false);
    var i: int := (8 * n) as int;
    ghost var count := i;
    while i > 0
      invariant 0 <= i <= count
      invariant Zeroing(b, old(b.sram), old(b.pins).(data := Low), old(b.trace) + [old(b.pins).(data := Low)],
                        old(b.strip), count - i)
    {
      ZeroPulse(b, old(b.sram), old(b.pins).(data := Low), old(b.trace) + [old(b.pins).(data := Low)],
                old(b.strip), count - i);
      i := i - 1;
    }
  }

  /** Port writes of init. */
  function InitEvents(p: Pins): seq<Pins>
  {
    var q := p.(data := Low, clock := Low);
    [p.(data := Low)] + [q] + [q] + ZeroEvents(q, 96) + SramDriver.InitEvents(q)
  }

  /**
   * init: DATA and CLOCK low, the 96-bit latch that wakes the strip, and
   * sram_init.
   */
  method Init(b: Board)
    requires b.Valid()
    modifies b
    ensures b.Valid() && Idle(b.pins)
    ensures b.pins == old(b.pins).(data := Low, clock := Low, sramClk := Low, sramOut := Low, sramHold := High, sramCs := High)
    ensures b.sram == old(b.sram).(status := SequentialMode, session := Deselected)
    ensures b.strip == old(b.strip) + Zeros(96)
    ensures b.trace == old(b.trace) + InitEvents(old(b.pins))
  {
    SetData(b, false);
    ClockLow(b);
    LatchLength();
    WriteZeros(b, LatchBytes);
    SramInit(b);
    ghost var p := old(b.pins);
    ghost var q := p.(data := Low, clock := Low);
    Append5(old(b.trace), [p.(data := Low)], [q], [q], ZeroEvents(q, 96), SramDriver.InitEvents(q));
  }

  // ---------------------------------------------------------------------------
  // Streaming the frame

  /** Port writes of one pass of display's bit loop from pins p, forwarding level l. */
  function BitEvents(p: Pins, l: Level): seq<Pins>
  {
    var q := p.(sramClk := High, clock := Low);
    [p.(sramClk := High), q, q.(data := l), q.(data := l, sramClk := Low), p.(data := l, clock := High)]
  }

  /**
   * One pass of display's bit loop: SCK high, CLOCK low, DATA set to what
   * the SRAM drives on SO, SCK low (the SRAM moves to its next bit), CLOCK
   * high (the strip takes DATA).
   */
  method StreamBit(b: Board, ghost k: nat)
    requires b.Valid() && Active(b.pins) && k < 8 && b.sram.session.Reading? && b.sram.session.bit == k
    modifies b
    ensures b.Valid()
    ensures b.pins == old(b.pins).(data := BitAt(old(b.sram.mem[b.sram.session.addr]), k), clock := High)
    ensures b.sram == old(b.sram).(session :=
              if k < 7 then Reading(old(b.sram.session.addr), k + 1)
              else Reading(NextAddress(old(b.sram.status), old(b.sram.session.addr)), 0))
    ensures b.strip == old(b.strip) + [BitAt(old(b.sram.mem[b.sram.session.addr]), k)]
    ensures b.trace == old(b.trace) + BitEvents(old(b.pins), BitAt(old(b.sram.mem[b.sram.session.addr]), k))
  {
    SckHigh(b);
    ClockLow(b);
    var l := b.SramIn();
    SetData(b, l == High);
    SckLow(b);
    ClockHigh(b);
  }

  /** Pins after the first k passes of the bit loop over byte v from pins p. */
  function BitsPins(p: Pins, v: bv8, k: nat): Pins
    requires k <= 8
  {
    if k == 0 then p else p.(data := BitAt(v, k - 1), clock := High)
  }

  /** Port writes of the first k passes of the bit loop over byte v from pins p. */
  function BitsEvents(p: Pins, v: bv8, k: nat): seq<Pins>
    requires k <= 8
  {
    if k == 0 then [] else BitsEvents(p, v, k - 1) + BitEvents(BitsPins(p, v, k - 1), BitAt(v, k - 1))
  }

  /** display's bit loop: the byte at the SRAM's pointer goes onto the strip, most significant bit first. */
  method StreamByte(b: Board)
    requires b.Valid() && Active(b.pins) && b.sram.session.Reading? && b.sram.session.bit == 0
    modifies b
    ensures b.Valid()
    ensures b.pins == BitsPins(old(b.pins), old(b.sram.mem[b.sram.session.addr]), 8)
    ensures b.sram == old(b.sram).(session := Reading(NextAddress(old(b.sram.status), old(b.sram.session.addr)), 0))
    ensures b.strip == old(b.strip) + MsbFirst(old(b.sram.mem[b.sram.session.addr]))
    ensures b.trace == old(b.trace) + BitsEvents(old(b.pins), old(b.sram.mem[b.sram.session.addr]), 8)
  {
    ghost var a := b.sram.session.addr;
    ghost var v := b.sram.mem[a];
    var m: bv8 := 0x80;
    ghost var k := 0;
    while m > 0
      invariant 0 <= k <= 8 && m == Mask(k) && (m != 0 <==> k < 8)
      invariant b.Valid() && b.pins == BitsPins(old(b.pins), v, k)
      invariant b.sram == old(b.sram).(session := if k < 8 then Reading(a, k) else Reading(NextAddress(b.sram.status, a), 0))
      invariant b.strip == old(b.strip) + MsbFirst(v)[..k]
      invariant b.trace == old(b.trace) + BitsEvents(old(b.pins), v, k)
      decreases 8 - k
    {
      StreamBit(b, k);
      assert MsbFirst(v)[..k + 1] == MsbFirst(v)[..k] + [BitAt(v, k)];
      Append2(old(b.trace), BitsEvents(old(b.pins), v, k), BitEvents(BitsPins(old(b.pins), v, k), BitAt(v, k)));
      m := m >> 1;
      k := k + 1;
      MaskTables(k);
    }
    assert MsbFirst(v)[..8] == MsbFirst(v);
  }

  /** Pins after streaming bytes from pins p: DATA at the last bit, CLOCK high. */
  function FramePins(p: Pins, bytes: seq<bv8>): Pins
  {
    if bytes == [] then p else BitsPins(p, bytes[|bytes| - 1], 8)
  }

  /** Port writes of streaming bytes from pins p. */
  function FrameEvents(p: Pins, bytes: seq<bv8>): seq<Pins>
    decreases |bytes|
  {
    if bytes == [] then []
    else
      var init := bytes[..|bytes| - 1];
      FrameEvents(p, init) + BitsEvents(FramePins(p, init), bytes[|bytes| - 1], 8)
  }

  /** The state of display's byte loop from chip d, pins p, trace t and strip s once n bytes from a are streamed. */
  ghost predicate Streaming(b: Board, d: Device, p: Pins, t: seq<Pins>, s: seq<Level>, a: nat, n: nat)
    reads b
    requires Ok(d) && a < MemSize
  {
    var bytes := Fetch(d.mem, d.status, a, n);
    && b.Valid() && Active(b.pins) && b.pins == FramePins(p, bytes)
    && b.sram == d.(session := Reading(Advance(d.status, a, n), 0))
    && b.strip == s + Frame(bytes)
    && b.trace == t + FrameEvents(p, bytes)
  }

  /** One pass of display's byte loop: one more byte on the strip. */
  method StreamStep(b: Board, ghost d: Device, ghost p: Pins, ghost t: seq<Pins>, ghost s: seq<Level>,
                    ghost a: nat, ghost n: nat)
    requires Ok(d) && a < MemSize && Streaming(b, d, p, t, s, a, n)
    modifies b
    ensures Streaming(b, d, p, t, s, a, n + 1)
  {
    ghost var f := Fetch(d.mem, d.status, a, n);
    ghost var x := d.mem[Advance(d.status, a, n)];
    StreamByte(b);
    FetchNext(d.mem, d.status, a, n);
    StreamNext(p, t, s, f, x);
    assert b.sram == d.(session := Reading(Advance(d.status, a, n + 1), 0));
  }

  /** One byte more streamed: its bits follow on the strip and its bit loop's writes follow in the trace. */
  lemma StreamNext(p: Pins, t: seq<Pins>, s: seq<Level>, f: seq<bv8>, x: bv8)
    ensures FramePins(p, f + [x]) == BitsPins(FramePins(p, f), x, 8)
    ensures s + Frame(f + [x]) == s + Frame(f) + MsbFirst(x)
    ensures t + FrameEvents(p, f + [x]) == t + FrameEvents(p, f) + BitsEvents(FramePins(p, f), x, 8)
  {
    Snoc(f, x);
    assert Frame(f + [x]) == Frame(f) + MsbFirst(x);
    assert FrameEvents(p, f + [x]) == FrameEvents(p, f) + BitsEvents(FramePins(p, f), x, 8);
    Append2(s, Frame(f), MsbFirst(x));
    Append2(t, FrameEvents(p, f), BitsEvents(FramePins(p, f), x, 8));
  }

  /** display's byte loop: the NUMLEDS * 3 bytes from the SRAM's pointer on go onto the strip. */
  method StreamFrame(b: Board)
    requires b.Valid() && Active(b.pins) && b.sram.session.Reading? && b.sram.session.bit == 0
    modifies b
    ensures b.Valid() && Active(b.pins)
    ensures var bytes := Fetch(old(b.sram.mem), old(b.sram.status), old(b.sram.session.addr), FrameBytes as int);
            && b.pins == FramePins(old(b.pins), bytes)
            && b.sram == old(b.sram).(session :=
                 Reading(Advance(old(b.sram.status), old(b.sram.session.addr), FrameBytes as int), 0))
            && b.strip == old(b.strip) + Frame(bytes)
            && b.trace == old(b.trace) + FrameEvents(old(b.pins), bytes)
  {
    ghost var a := b.sram.session.addr;
    var i := 0;
    while i < FrameBytes as int
      invariant 0 <= i <= FrameBytes as int
      invariant Streaming(b, old(b.sram), old(b.pins), old(b.trace), old(b.strip), a, i)
    {
      StreamStep(b, old(b.sram), old(b.pins), old(b.trace), old(b.strip), a, i);
      i := i + 1;
    }
  }

  // ---------------------------------------------------------------------------
  // display

  /** The frame display streams: the NUMLEDS * 3 bytes a read from address 0 returns. */
  function FrameOf(d: Device): (f: seq<bv8>)
    requires Ok(d)
    ensures |f| == FrameBytes as int
  {
    Fetch(d.mem, d.status, Loc(0), FrameBytes as int)
  }

  /** In sequential mode, the frame is the first NUMLEDS * 3 bytes of the array. */
  lemma FrameOfSequential(d: Device)
    requires Ok(d) && Sequential(d.status)
    ensures FrameOf(d) == d.mem[..FrameBytes as int]
  {
    FetchFromZero(d.mem, d.status, FrameBytes as int);
  }

  /** Pins after display, either version. */
  function DisplayPins(p: Pins): Pins
  {
    AfterPreamble(p, READ, 0).(sramCs := High, data := Low, clock := Low)
  }

  /** Port writes of display as written. */
  function DisplayEvents(p: Pins, frame: seq<bv8>): seq<Pins>
  {
    var p1 := AfterPreamble(p, READ, 0);
    var q := FramePins(p1, frame).(sramCs := High);
    PreambleEvents(p, READ, 0) + FrameEvents(p1, frame) + [q] + [q.(data := Low)] + ZeroEvents(q.(data := Low), 96)
  }

  /**
   * display as written: a READ from address 0 streamed bit by bit onto the
   * strip, the SRAM deselected, and the latch. The streaming loop leaves
   * CLOCK high, so the latch's first pulse is no rising edge and the strip
   * gets only 95 of the 96 zero bits.
   */
  method Display(b: Board)
    requires b.Valid() && Idle(b.pins)
    modifies b
    ensures b.Valid() && Idle(b.pins)
    ensures b.pins == DisplayPins(old(b.pins))
    ensures b.sram == old(b.sram)
    ensures b.strip == old(b.strip) + Frame(FrameOf(old(b.sram))) + Zeros(95)
    ensures b.trace == old(b.trace) + DisplayEvents(old(b.pins), FrameOf(old(b.sram)))
  {
    SramPreamble(b, READ, 0);
    StreamFrame(b);
    SramDeselectChip(b);
    LatchLength();
    WriteZeros(b, LatchBytes);
    ghost var p1 := AfterPreamble(old(b.pins), READ, 0);
    ghost var q := FramePins(p1, FrameOf(old(b.sram))).(sramCs := High);
    Append5(old(b.trace), PreambleEvents(old(b.pins), READ, 0), FrameEvents(p1, FrameOf(old(b.sram))), [q],
            [q.(data := Low)], ZeroEvents(q.(data := Low), 96));
  }

  /** Port writes of the corrected display. */
  function DisplayFixedEvents(p: Pins, frame: seq<bv8>): seq<Pins>
  {
    var p1 := AfterPreamble(p, READ, 0);
    var q := FramePins(p1, frame).(sramCs := High, clock := Low);
    PreambleEvents(p, READ, 0) + FrameEvents(p1, frame) + [q.(clock := High)] + [q] + ([q.(data := Low)] + ZeroEvents(q.(data := Low), 96))
  }

  /** display with CLOCK lowered before the latch, so that all 96 zero bits reach the strip. */
  method DisplayFixed(b: Board)
    requires b.Valid() && Idle(b.pins)
    modifies b
    ensures b.Valid() && Idle(b.pins)
    ensures b.pins == DisplayPins(old(b.pins))
    ensures b.sram == old(b.sram)
    ensures b.strip == old(b.strip) + Frame(FrameOf(old(b.sram))) + Zeros(96)
    ensures Sequential(old(b.sram.status)) ==>
              b.strip == old(b.strip) + Frame(old(b.sram.mem)[..FrameBytes as int]) + Zeros(96)
    ensures b.trace == old(b.trace) + DisplayFixedEvents(old(b.pins), FrameOf(old(b.sram)))
  {
    ghost var p1 := AfterPreamble(old(b.pins), READ, 0);
    ghost var q := FramePins(p1, FrameOf(old(b.sram))).(sramCs := High, clock := Low);
    SramPreamble(b, READ, 0);
    StreamFrame(b);
    SramDeselectChip(b);
    ClockLow(b);
    Append4(old(b.trace), PreambleEvents(old(b.pins), READ, 0), FrameEvents(p1, FrameOf(old(b.sram))), [q.(clock := High)], [q]);
    ghost var t := b.trace;
    LatchLength();
    WriteZeros(b, LatchBytes);
    Append2(t, [q.(data := Low)], ZeroEvents(q.(data := Low), 96));
    Append2(old(b.trace), PreambleEvents(old(b.pins), READ, 0) + FrameEvents(p1, FrameOf(old(b.sram))) + [q.(clock := High)] + [q],
            [q.(data := Low)] + ZeroEvents(q.(data := Low), 96));
    if Sequential(old(b.sram.status)) {
      FrameOfSequential(old(b.sram));
    }
  }

  // ---------------------------------------------------------------------------
  // Pixels in the frame

  /** The bounds test of setPixel and setPixelS; the `< 0` tests are vacuous on unsigned values. */
  predicate OnGrid(col: bv16, row: bv16): (g: bool)
    ensures g ==> CalcIndex(col, row) < NumLeds
  {
    row < Rows && col < Cols
  }

  /** The SRAM address of a pixel's three bytes: n * 3 with n = calcIndex(col, row). */
  function PixelAddress(col: bv16, row: bv16): (a: bv16)
    ensures OnGrid(col, row) ==> a as int == 3 * CalcIndex(col, row) as int && a as int + 3 <= FrameBytes as int
  {
    CalcIndex(col, row) * 3
  }

  /** The chip after setPixel's write of the pixel bytes px. */
  function Paint(d: Device, col: bv16, row: bv16, px: seq<bv8>): (r: Device)
    requires Ok(d)
    ensures Ok(r) && r.status == d.status && r.session == d.session
  {
    d.(mem := Store(d.mem, d.status, Loc(PixelAddress(col, row)), px))
  }

  /** Pins after setPixel's write. */
  function PaintPins(p: Pins, col: bv16, row: bv16, px: seq<bv8>): Pins
  {
    AfterBytes(AfterPreamble(p, WRITE, PixelAddress(col, row)), px).(sramCs := High)
  }

  /** On the grid, a pixel's address is three times its serpentine position. */
  lemma PixelAddressLoc(col: bv16, row: bv16)
    requires OnGrid(col, row)
    ensures col as int < Cols as int && row as int < Rows as int
    ensures Loc(PixelAddress(col, row)) == 3 * Serpentine(col as int, row as int)
    ensures Serpentine(col as int, row as int) < NumLeds as int
  {
    CalcIndexSerpentine(col, row);
  }

  /**
   * In sequential mode, painting a pixel on the grid sets exactly the
   * three bytes from three times its serpentine position and nothing else.
   */
  lemma PaintSequential(d: Device, col: bv16, row: bv16, px: seq<bv8>)
    requires Ok(d) && OnGrid(col, row) && Sequential(d.status) && |px| == 3
    ensures var a := 3 * Serpentine(col as int, row as int);
            Paint(d, col, row, px) == d.(mem := d.mem[a := px[0]][a + 1 := px[1]][a + 2 := px[2]])
  {
    PixelAddressLoc(col, row);
    var a := Loc(PixelAddress(col, row));
    assert a + 2 < MemSize;
    assert px == [px[0], px[1], px[2]];
    StoreThree(d.mem, d.status, a, px[0], px[1], px[2]);
  }

  /**
   * setPixel: off the grid nothing happens; on it the bytes 0x80 | g,
   * 0x80 | r and 0x80 | b go out in one WRITE to the pixel's address.
   */
  method SetPixel(b: Board, col: bv16, row: bv16, r: bv8, g: bv8, bl: bv8)
    requires b.Valid() && Idle(b.pins)
    modifies b
    ensures b.Valid() && Idle(b.pins)
    ensures b.strip == old(b.strip)
    ensures !OnGrid(col, row) ==> b.pins == old(b.pins) && b.sram == old(b.sram) && b.trace == old(b.trace)
    ensures OnGrid(col, row) ==>
              && b.sram == Paint(old(b.sram), col, row, PixelBytes(Rgb(r, g, bl)))
              && b.pins == PaintPins(old(b.pins), col, row, PixelBytes(Rgb(r, g, bl)))
              && b.trace == old(b.trace) + WriteEvents(old(b.pins), PixelAddress(col, row), PixelBytes(Rgb(r, g, bl)))
  {
    if row >= Rows || col >= Cols {
      return;
    }
    var n := CalcIndex(col, row);
    var bytes := new bv8[3];
    bytes[0] := 0x80 | g;
    bytes[1] := 0x80 | r;
    bytes[2] := 0x80 | bl;
    ghost var px := PixelBytes(Rgb(r, g, bl));
    assert Clamp(3) == 3;
    assert bytes[..Clamp(3)] == px;
    assert n * 3 == PixelAddress(col, row);
    SramWriteBytes(b, n * 3, bytes, 3);
  }

  /** setPixelS: setPixel with the channels unpacked from a packed colour. */
  method SetPixelS(b: Board, col: bv16, row: bv16, c: bv32)
    requires b.Valid() && Idle(b.pins)
    modifies b
    ensures b.Valid() && Idle(b.pins)
    ensures b.strip == old(b.strip)
    ensures !OnGrid(col, row) ==> b.pins == old(b.pins) && b.sram == old(b.sram) && b.trace == old(b.trace)
    ensures OnGrid(col, row) ==>
              && b.sram == Paint(old(b.sram), col, row, PixelBytes(Channels(c)))
              && b.pins == PaintPins(old(b.pins), col, row, PixelBytes(Channels(c)))
              && b.trace == old(b.trace) + WriteEvents(old(b.pins), PixelAddress(col, row), PixelBytes(Channels(c)))
  {
    if row >= Rows || col >= Cols {
      return;
    }
    var rgb := Channels(c);
    SetPixel(b, col, row, rgb.r, rgb.g, rgb.b);
  }

  // ---------------------------------------------------------------------------
  // colorwipe

  /** The grid cell colorwipe visits just before (col, row): the row before, or the last row of the column before. */
  function PrevCol(col: bv16, row: bv16): bv16
  {
    if row > 0 then col else col - 1
  }

  function PrevRow(col: bv16, row: bv16): bv16
  {
    if row > 0 then row - 1 else Rows - 1
  }

  /** The chip after colorwipe's setPixelS calls for the cells before (col, row), column by column. */
  function WipeDevice(d: Device, px: seq<bv8>, col: bv16, row: bv16): (r: Device)
    requires Ok(d) && row <= Rows
    ensures Ok(r) && r.status == d.status && r.session == d.session
    decreases col, row
  {
    if col == 0 && row == 0 then d
    else
      var pc, pr := PrevCol(col, row), PrevRow(col, row);
      Paint(WipeDevice(d, px, pc, pr), pc, pr, px)
  }

  /** Pins after colorwipe's setPixelS calls for the cells before (col, row). */
  function WipePins(p: Pins, px: seq<bv8>, col: bv16, row: bv16): Pins
    requires row <= Rows
    decreases col, row
  {
    if col == 0 && row == 0 then p
    else
      var pc, pr := PrevCol(col, row), PrevRow(col, row);
      PaintPins(WipePins(p, px, pc, pr), pc, pr, px)
  }

  /** Port writes of colorwipe's setPixelS calls for the cells before (col, row). */
  function WipeEvents(p: Pins, px: seq<bv8>, col: bv16, row: bv16): seq<Pins>
    requires row <= Rows
    decreases col, row
  {
    if col == 0 && row == 0 then []
    else
      var pc, pr := PrevCol(col, row), PrevRow(col, row);
      WipeEvents(p, px, pc, pr) + WriteEvents(WipePins(p, px, pc, pr), PixelAddress(pc, pr), px)
  }

  /** Finishing a column is starting the next one. */
  lemma WipeTurn(d: Device, p: Pins, px: seq<bv8>, col: bv16)
    requires Ok(d) && col < Cols
    ensures WipeDevice(d, px, col, Rows) == WipeDevice(d, px, col + 1, 0)
    ensures WipePins(p, px, col, Rows) == WipePins(p, px, col + 1, 0)
    ensures WipeEvents(p, px, col, Rows) == WipeEvents(p, px, col + 1, 0)
  {
  }

  /** The state of colorwipe's loops from chip d, pins p, trace t and strip s once the cells before (col, row) are set. */
  ghost predicate Wiped(b: Board, d: Device, p: Pins, t: seq<Pins>, s: seq<Level>, px: seq<bv8>, col: bv16, row: bv16)
    reads b
    requires Ok(d) && row <= Rows
  {
    && b.Valid() && Idle(b.pins)
    && b.sram == WipeDevice(d, px, col, row)
    && b.pins == WipePins(p, px, col, row)
    && b.trace == t + WipeEvents(p, px, col, row)
    && b.strip == s
  }

  /** One pass of colorwipe's inner loop: setPixelS(col, row, c). */
  method WipeStep(b: Board, col: bv16, row: bv16, c: bv32,
                  ghost d: Device, ghost p: Pins, ghost t: seq<Pins>, ghost s: seq<Level>)
    requires Ok(d) && OnGrid(col, row)
    requires Wiped(b, d, p, t, s, PixelBytes(Channels(c)), col, row)
    modifies b
    ensures Wiped(b, d, p, t, s, PixelBytes(Channels(c)), col, row + 1)
  {
    ghost var px := PixelBytes(Channels(c));
    SetPixelS(b, col, row, c);
    Append2(t, WipeEvents(p, px, col, row), WriteEvents(WipePins(p, px, col, row), PixelAddress(col, row), px));
  }

  /**
   * colorwipe: setPixelS of c on every cell, column by column and row by
   * row within a column, then display (corrected, see DisplayFixed).
   */
  method ColorWipe(b: Board, c: bv32)
    requires b.Valid() && Idle(b.pins)
    modifies b
    ensures b.Valid() && Idle(b.pins)
    ensures b.sram == WipeDevice(old(b.sram), PixelBytes(Channels(c)), Cols, 0)
    ensures b.pins == DisplayPins(WipePins(old(b.pins), PixelBytes(Channels(c)), Cols, 0))
    ensures b.strip == old(b.strip) + Frame(FrameOf(b.sram)) + Zeros(96)
    ensures b.trace == old(b.trace) + WipeEvents(old(b.pins), PixelBytes(Channels(c)), Cols, 0)
                       + DisplayFixedEvents(WipePins(old(b.pins), PixelBytes(Channels(c)), Cols, 0), FrameOf(b.sram))
    ensures Sequential(old(b.sram.status)) ==>
              && (forall j | 0 <= j < FrameBytes as int :: b.sram.mem[j] == PixelBytes(Channels(c))[j % 3])
              && (forall j | FrameBytes as int <= j < MemSize :: b.sram.mem[j] == old(b.sram.mem)[j])
              && b.strip == old(b.strip) + Frame(b.sram.mem[..FrameBytes as int]) + Zeros(96)
  {
    ghost var px := PixelBytes(Channels(c));
    var col: bv16 := 0;
    while col < Cols
      invariant col <= Cols
      invariant Wiped(b, old(b.sram), old(b.pins), old(b.trace), old(b.strip), px, col, 0)
      decreases Cols as int - col as int
    {
      var row: bv16 := 0;
      while row < Rows
        invariant row <= Rows
        invariant Wiped(b, old(b.sram), old(b.pins), old(b.trace), old(b.strip), px, col, row)
        decreases Rows as int - row as int
      {
        WipeStep(b, col, row, c, old(b.sram), old(b.pins), old(b.trace), old(b.strip));
        row := row + 1;
      }
      WipeTurn(old(b.sram), old(b.pins), px, col);
      col := col + 1;
    }
    DisplayFixed(b);
    if Sequential(old(b.sram.status)) {
      WipeAll(old(b.sram), px);
    }
  }

  /** The cell of strip position n comes before (col, row) in colorwipe's order. */
  predicate Before(n: nat, col: int, row: int)
  {
    ColOf(n) < col || (ColOf(n) == col && RowOf(n) < row)
  }

  /** (pc, pr) is the grid cell just before (col, row) in colorwipe's order, told in numbers. */
  predicate Preceding(pc: bv16, pr: bv16, col: int, row: int)
  {
    && OnGrid(pc, pr) && pc as int < Cols as int && pr as int < Rows as int
    && 0 <= row <= Rows as int
    && (row > 0 ==> pc as int == col && pr as int == row - 1)
    && (row == 0 ==> pc as int == col - 1 && pr as int == Rows as int - 1)
  }

  /** On the grid, the cell before (col, row) is one column or one row back. */
  lemma PrevValues(col: bv16, row: bv16)
    requires row <= Rows && (col < Cols || (col == Cols && row == 0)) && (col != 0 || row != 0)
    ensures Preceding(PrevCol(col, row), PrevRow(col, row), col as int, row as int)
  {
    if row == 0 {
      assert 1 <= col <= Cols;
      assert col - 1 < Cols;
    } else {
      assert row - 1 < Rows;
    }
  }

  /**
   * Memory m is m0 with the pixel bytes px written to every cell before
   * (col, row) and nothing else changed.
   */
  ghost predicate WipedMem(m0: seq<bv8>, m: seq<bv8>, px: seq<bv8>, col: int, row: int)
    requires |m0| == MemSize && |m| == MemSize && |px| == 3
  {
    forall j | 0 <= j < MemSize ::
      m[j] == if j < FrameBytes as int && Before(j / 3, col, row) then px[j % 3] else m0[j]
  }

  /** In sequential mode, once colorwipe has set the cells before (col, row), exactly their bytes have changed. */
  lemma {:induction false} WipeSequential(d: Device, px: seq<bv8>, col: bv16, row: bv16)
    requires Ok(d) && |px| == 3 && Sequential(d.status) && row <= Rows && (col < Cols || (col == Cols && row == 0))
    ensures WipedMem(d.mem, WipeDevice(d, px, col, row).mem, px, col as int, row as int)
    decreases col, row
  {
    if col == 0 && row == 0 {
    } else {
      PrevValues(col, row);
      WipeSequential(d, px, PrevCol(col, row), PrevRow(col, row));
      WipeUnfold(d, px, col, row);
      PaintNext(d.mem, WipeDevice(d, px, PrevCol(col, row), PrevRow(col, row)), px,
                PrevCol(col, row), PrevRow(col, row), col as int, row as int);
    }
  }

  /** Past the first cell, colorwipe's chip is its chip one cell back with that cell painted. */
  lemma WipeUnfold(d: Device, px: seq<bv8>, col: bv16, row: bv16)
    requires Ok(d) && row <= Rows && (col != 0 || row != 0)
    ensures PrevRow(col, row) <= Rows
    ensures WipeDevice(d, px, col, row) ==
              Paint(WipeDevice(d, px, PrevCol(col, row), PrevRow(col, row)), PrevCol(col, row), PrevRow(col, row), px)
  {
  }

  /** Painting the cell (pc, pr), the one just before (col, row), over the cells before it. */
  lemma PaintNext(m0: seq<bv8>, w: Device, px: seq<bv8>, pc: bv16, pr: bv16, col: int, row: int)
    requires Ok(w) && |m0| == MemSize && |px| == 3 && Sequential(w.status)
    requires Preceding(pc, pr, col, row)
    requires WipedMem(m0, w.mem, px, pc as int, pr as int)
    ensures WipedMem(m0, Paint(w, pc, pr, px).mem, px, col, row)
  {
    PaintSequential(w, pc, pr, px);
    var n := Serpentine(pc as int, pr as int);
    SerpentineInverse(pc as int, pr as int);
    WipeNext(m0, w.mem, Paint(w, pc, pr, px).mem, px, n, pc as int, pr as int, col, row);
  }

  /** Painting the cell just before (col, row) over the cells before it gives the cells before (col, row). */
  lemma WipeNext(m0: seq<bv8>, w: seq<bv8>, m1: seq<bv8>, px: seq<bv8>, n: nat, pc: nat, pr: nat, col: nat, row: nat)
    requires |m0| == MemSize && |w| == MemSize && |px| == 3
    requires pc < Cols as int && pr < Rows as int && n == Serpentine(pc, pr)
    requires ColOf(n) == pc && RowOf(n) == pr
    requires row <= Rows as int
    requires row > 0 ==> pc == col && pr == row - 1
    requires row == 0 ==> pc == col - 1 && pr == Rows as int - 1
    requires WipedMem(m0, w, px, pc, pr)
    requires m1 == w[3 * n := px[0]][3 * n + 1 := px[1]][3 * n + 2 := px[2]]
    ensures WipedMem(m0, m1, px, col, row)
  {
    forall j | 0 <= j < MemSize
      ensures m1[j] == if j < FrameBytes as int && Before(j / 3, col, row) then px[j % 3] else m0[j]
    {
      WipeCell(n, j, pc, pr, col, row);
    }
  }

  /** Byte j lies in the pixel at position n, the cell just before (col, row), or its pixel's cell is another one. */
  lemma WipeCell(n: nat, j: nat, pc: nat, pr: nat, col: nat, row: nat)
    requires pc < Cols as int && pr < Rows as int && n == Serpentine(pc, pr)
    requires ColOf(n) == pc && RowOf(n) == pr
    requires row <= Rows as int
    requires row > 0 ==> pc == col && pr == row - 1
    requires row == 0 ==> pc == col - 1 && pr == Rows as int - 1
    ensures 3 * n <= j < 3 * n + 3 ==> j / 3 == n && j % 3 == j - 3 * n && Before(j / 3, col, row)
    ensures !(3 * n <= j < 3 * n + 3) && j < FrameBytes as int ==> (Before(j / 3, col, row) <==> Before(j / 3, pc, pr))
  {
    if !(3 * n <= j < 3 * n + 3) && j < FrameBytes as int {
      var m := j / 3;
      assert m != n;
      SerpentineOnto(m);
    }
  }

  /** In sequential mode, once colorwipe has set every cell, the whole frame holds the pixel bytes and nothing else changed. */
  lemma WipeAll(d: Device, px: seq<bv8>)
    requires Ok(d) && |px| == 3 && Sequential(d.status)
    ensures forall j | 0 <= j < FrameBytes as int :: WipeDevice(d, px, Cols, 0).mem[j] == px[j % 3]
    ensures forall j | FrameBytes as int <= j < MemSize :: WipeDevice(d, px, Cols, 0).mem[j] == d.mem[j]
    ensures WipeDevice(d, px, Cols, 0).status == d.status
  {
    WipeSequential(d, px, Cols, 0);
  }
}
