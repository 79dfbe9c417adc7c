/**
 * The bit-banged 23K256 driver: chip select, HOLD, the MSB-first shift
 * routine, and the status, write and read transactions built on them.
 * Each method is one driver routine; each port write in it is one
 * Board.Write. The `...Events` functions spell out the port writes a
 * routine makes, and its contract ties the board's new state to them and
 * to the chip's memory semantics.
 */
module SramDriver {
  import opened Signals
  import opened Sram23K256
  import opened Hardware

  // ---------------------------------------------------------------------------
  // Port writes of the driver routines

  /** Pins after sram_select_chip: SI low, SCK low, CS low. */
  function Selecting(p: Pins): Pins
  {
    p.(sramOut := Low, sramClk := Low, sramCs := Low)
  }

  function SelectEvents(p: Pins): seq<Pins>
  {
    [p.(sramOut := Low), p.(sramOut := Low, sramClk := Low), Selecting(p)]
  }

  /** The SI levels sram_send presents for mask and data, in order. */
  function SendBits(mask: bv16, data: bv16): (s: seq<Level>)
    ensures |s| == Count(mask)
    decreases mask
  {
    if mask == 0 then [] else [LevelOf(data & mask != 0)] + SendBits(mask >> 1, data)
  }

  /** With mask 0x80, sram_send presents the byte's eight bits in wire order, most significant first. */
  lemma SendBitsByte(x: bv8)
    ensures SendBits(0x80, x as bv16) == MsbFirst(x)
  {
    SendBitsFrom(x, 0);
  }

  /** From the mask of bit k on, sram_send presents bits k to 7 of the byte, counting from the top. */
  lemma {:induction false} SendBitsFrom(x: bv8, k: nat)
    requires k <= 8
    ensures SendBits(Mask(k) as bv16, x as bv16) == MsbFirst(x)[k..]
    decreases 8 - k
  {
    MaskTables(k);
    if k < 8 {
      SendBitsFrom(x, k + 1);
      Widen(x, Mask(k));
      assert MsbFirst(x)[k..] == [BitAt(x, k)] + MsbFirst(x)[k + 1..];
    }
  }

  /** Widening bytes to 16 bits commutes with the mask test and the shift of sram_send's loop. */
  lemma Widen(x: bv8, m: bv8)
    ensures (x as bv16 & m as bv16 != 0) == (x & m != 0)
    ensures (m as bv16) >> 1 == (m >> 1) as bv16
  {
  }

  /** The port writes of sram_send's loop: SCK low, SI set, SCK high, per mask bit. */
  function SendLoop(p: Pins, mask: bv16, data: bv16): seq<Pins>
    decreases mask
  {
    if mask == 0 then []
    else
      var q := p.(sramOut := LevelOf(data & mask != 0));
      [p.(sramClk := Low), q.(sramClk := Low), q.(sramClk := High)]
      + SendLoop(q.(sramClk := High), mask >> 1, data)
  }

  /** Pins after sram_send: SCK low, SI at the last bit sent. */
  function AfterSend(p: Pins, mask: bv16, data: bv16): Pins
  {
    if mask == 0 then p.(sramClk := Low) else p.(sramClk := Low, sramOut := LevelOf(data & 1 != 0))
  }

  function SendEvents(p: Pins, mask: bv16, data: bv16): seq<Pins>
  {
    SendLoop(p, mask, data) + [AfterSend(p, mask, data)]
  }

  /** sram_send's SCK discipline: the chip samples exactly the bits `data & mask`, most significant first. */
  lemma {:induction false} SendSamples(p: Pins, mask: bv16, data: bv16)
    ensures SiSamples(p, SendEvents(p, mask, data)) == SendBits(mask, data)
    decreases mask
  {
    if mask == 0 {
      assert SendEvents(p, mask, data) == [p.(sramClk := Low)];
      assert SiSamples(p.(sramClk := Low), []) == [];
    } else {
      var l := LevelOf(data & mask != 0);
      var q := p.(sramOut := l);
      var r := q.(sramClk := High);
      var head := [p.(sramClk := Low), q.(sramClk := Low), r];
      assert AfterSend(r, mask >> 1, data) == AfterSend(p, mask, data) by {
        if mask >> 1 == 0 {
          assert mask == 1;
        }
      }
      assert SendLoop(p, mask, data) == head + SendLoop(r, mask >> 1, data);
      assert SendEvents(p, mask, data) == head + SendEvents(r, mask >> 1, data);
      SiSamplesAppend(p, head, SendEvents(r, mask >> 1, data));
      SendSamples(r, mask >> 1, data);
      HeadSample(p, l);
    }
  }

  /** One pass of sram_send's loop presents exactly one SI level at a rising SCK edge. */
  lemma HeadSample(p: Pins, l: Level)
    ensures var q := p.(sramOut := l);
            SiSamples(p, [p.(sramClk := Low), q.(sramClk := Low), q.(sramClk := High)]) == [l]
  {
    var q := p.(sramOut := l);
    var head := [p.(sramClk := Low), q.(sramClk := Low), q.(sramClk := High)];
    var h1 := head[1..];
    var h2 := h1[1..];
    assert h2[1..] == [];
    assert SiSamples(h1[0], h2) == [l] + SiSamples(q.(sramClk := High), h2[1..]);
    assert SiSamples(head[0], h1) == SiSamples(h1[0], h2);
  }

  // ---------------------------------------------------------------------------
  // Chip select, hold, and the shift routine

  /** The chip after the writes of sram_select_chip. */
  function AfterSelect(d: Device, p: Pins): (r: Device)
    requires Ok(d) && Coherent(p, d.session)
  {
    if p.sramCs == High then d.(session := Fresh(p.sramHold))
    else if p.sramClk == High then Fall(d)
    else d
  }

  method SramSelectChip(b: Board)
    requires b.Valid()
    modifies b
    ensures b.Valid()
    ensures b.pins == Selecting(old(b.pins))
    ensures b.sram == AfterSelect(old(b.sram), old(b.pins))
    ensures b.strip == old(b.strip)
    ensures b.trace == old(b.trace) + SelectEvents(old(b.pins))
  {
    b.Write(b.pins.(sramOut := Low));
    b.Write(b.pins.(sramClk := Low));
    b.Write(b.pins.(sramCs := Low));
  }

  method SramDeselectChip(b: Board)
    requires b.Valid()
    modifies b
    ensures b.Valid()
    ensures b.pins == old(b.pins).(sramCs := High)
    ensures b.sram == old(b.sram).(session := Deselected)
    ensures b.strip == old(b.strip)
    ensures b.trace == old(b.trace) + [old(b.pins).(sramCs := High)]
  {
    b.Write(b.pins.(sramCs := High));
  }

  /** HOLD low: a session in progress is paused. */
  method SramHold(b: Board)
    requires b.Valid() && b.pins.sramClk == Low
    modifies b
    ensures b.Valid()
    ensures b.pins == old(b.pins).(sramHold := Low)
    ensures b.sram == if old(b.pins.sramCs) == Low && old(b.pins.sramHold) == High
                      then old(b.sram).(session := Held(old(b.sram.session)))
                      else old(b.sram)
    ensures b.strip == old(b.strip)
    ensures b.trace == old(b.trace) + [old(b.pins).(sramHold := Low)]
  {
    b.Write(b.pins.(sramHold := Low));
  }

  /** HOLD high: a paused session resumes where it stopped. */
  method SramUnhold(b: Board)
    requires b.Valid() && b.pins.sramClk == Low
    modifies b
    ensures b.Valid()
    ensures b.pins == old(b.pins).(sramHold := High)
    ensures b.sram == if old(b.pins.sramCs) == Low && old(b.pins.sramHold) == Low
                      then old(b.sram).(session := old(b.sram.session.paused))
                      else old(b.sram)
    ensures b.strip == old(b.strip)
    ensures b.trace == old(b.trace) + [old(b.pins).(sramHold := High)]
  {
    b.Write(b.pins.(sramHold := High));
  }

  /** The chip once SCK is low: a pending high SCK falls first. */
  function Settle(d: Device, p: Pins): (r: Device)
    requires Ok(d)
  {
    if p.sramClk == High then Fall(d) else d
  }

  /** P2OUT &= ~SRAM_CLK: a pending high SCK falls. */
  method SckLow(b: Board)
    requires b.Valid()
    modifies b
    ensures b.Valid()
    ensures b.pins == old(b.pins).(sramClk := Low)
    ensures b.sram == Settle(old(b.sram), old(b.pins))
    ensures b.strip == old(b.strip)
    ensures b.trace == old(b.trace) + [old(b.pins).(sramClk := Low)]
  {
    StepClock(b.sram, b.pins);
    b.Write(b.pins.(sramClk := Low));
  }

  /** P2OUT |= SRAM_CLK with SCK low: the chip samples SI. */
  method SckHigh(b: Board)
    requires b.Valid() && b.pins.sramClk == Low
    modifies b
    ensures b.Valid()
    ensures b.pins == old(b.pins).(sramClk := High)
    ensures b.sram == Rise(old(b.sram), old(b.pins.sramOut))
    ensures b.strip == old(b.strip)
    ensures b.trace == old(b.trace) + [old(b.pins).(sramClk := High)]
  {
    StepClock(b.sram, b.pins);
    b.Write(b.pins.(sramClk := High));
  }

  /** P2OUT |= SRAM_OUT or P2OUT &= ~SRAM_OUT: SI set, which the chip does not see until SCK rises. */
  method SetSi(b: Board, bit: bool)
    requires b.Valid()
    modifies b
    ensures b.Valid()
    ensures b.pins == old(b.pins).(sramOut := LevelOf(bit))
    ensures b.sram == old(b.sram)
    ensures b.strip == old(b.strip)
    ensures b.trace == old(b.trace) + [old(b.pins).(sramOut := LevelOf(bit))]
  {
    StepQuiet(b.sram, b.pins, b.pins.(sramOut := LevelOf(bit)));
    if bit {
      b.Write(b.pins.(sramOut := High));
    } else {
      b.Write(b.pins.(sramOut := Low));
    }
  }

  /** The first pass of sram_send's loop, spelled out. */
  lemma SendLoopHead(p: Pins, m: bv16, data: bv16)
    requires m != 0
    ensures var q := p.(sramClk := Low, sramOut := LevelOf(data & m != 0));
            SendLoop(p, m, data) == [p.(sramClk := Low), q, q.(sramClk := High)] + SendLoop(q.(sramClk := High), m >> 1, data)
  {
  }

  /** One pass of sram_send's loop for mask bit m: SCK low, SI set to `data & m`, SCK high. */
  method SendStep(b: Board, m: bv16, data: bv16)
    requires b.Valid() && m != 0
    modifies b
    ensures b.Valid()
    ensures b.pins == old(b.pins).(sramClk := High, sramOut := LevelOf(data & m != 0))
    ensures Settle(b.sram, b.pins) == Pulse(Settle(old(b.sram), old(b.pins)), LevelOf(data & m != 0))
    ensures b.strip == old(b.strip)
    ensures b.trace + SendLoop(b.pins, m >> 1, data) == old(b.trace) + SendLoop(old(b.pins), m, data)
  {
    SendLoopHead(b.pins, m, data);
    SckLow(b);
    SetSi(b, data & m != 0);
    SckHigh(b);
  }

  /** Pins after sram_send's loop: SCK high and SI at the last bit sent, unless the mask was zero. */
  function AfterLoop(p: Pins, mask: bv16, data: bv16): Pins
  {
    if mask == 0 then p else p.(sramClk := High, sramOut := LevelOf(data & 1 != 0))
  }

  /** The pass for the lowest non-zero mask sends bit 0. */
  lemma LastBit(m: bv16, data: bv16)
    requires m != 0
    ensures m >> 1 == 0 ==> (data & m != 0) == (data & 1 != 0)
  {
  }

  /** The state of sram_send's loop from pins p, chip d and trace t, once the passes for the mask bits above m are done. */
  ghost predicate Shifting(b: Board, d: Device, p: Pins, t: seq<Pins>, mask: bv16, m: bv16, data: bv16, last: Level)
    reads b
    requires Ok(d)
  {
    && m <= mask
    && b.Valid()
    && b.pins == (if m == mask then p else p.(sramClk := High, sramOut := last))
    && (m == 0 && mask != 0 ==> last == LevelOf(data & 1 != 0))
    && SendTo(Settle(b.sram, b.pins), m, data) == SendTo(Settle(d, p), mask, data)
    && b.trace + SendLoop(b.pins, m, data) == t + SendLoop(p, mask, data)
  }

  /** sram_send's loop: one SCK pulse per mask bit, from the given mask down to the lowest bit. */
  method ShiftOut(b: Board, mask: bv16, data: bv16)
    requires b.Valid()
    modifies b
    ensures b.Valid()
    ensures b.pins == AfterLoop(old(b.pins), mask, data)
    ensures Settle(b.sram, b.pins) == SendTo(Settle(old(b.sram), old(b.pins)), mask, data)
    ensures b.strip == old(b.strip)
    ensures b.trace == old(b.trace) + SendLoop(old(b.pins), mask, data)
  {
    var m := mask;
    ghost var last := old(b.pins.sramOut);
    while m > 0
      invariant Shifting(b, old(b.sram), old(b.pins), old(b.trace), mask, m, data, last)
      invariant b.strip == old(b.strip)
      decreases m
    {
      last := ShiftStep(b, old(b.sram), old(b.pins), old(b.trace), mask, m, data, last);
      m := m >> 1;
    }
  }

  /** One pass of sram_send's loop keeps the loop's state, one mask bit further. */
  method ShiftStep(b: Board, ghost d: Device, ghost p: Pins, ghost t: seq<Pins>, mask: bv16, m: bv16, data: bv16,
                   ghost last: Level)
    returns (ghost next: Level)
    requires Ok(d) && m != 0 && Shifting(b, d, p, t, mask, m, data, last)
    modifies b
    ensures Shifting(b, d, p, t, mask, m >> 1, data, next)
    ensures b.strip == old(b.strip)
  {
    SendStep(b, m, data);
    LastBit(m, data);
    next := LevelOf(data & m != 0);
  }

  /**
   * sram_send: one SCK pulse per mask bit, from the given mask down to the
   * lowest bit, with SI at `data & bit` while SCK rises; SCK ends low.
   */
  method SramSend(b: Board, mask: bv16, data: bv16)
    requires b.Valid()
    modifies b
    ensures b.Valid()
    ensures b.pins == AfterSend(old(b.pins), mask, data)
    ensures b.sram == SendTo(Settle(old(b.sram), old(b.pins)), mask, data)
    ensures b.strip == old(b.strip)
    ensures b.trace == old(b.trace) + SendEvents(old(b.pins), mask, data)
  {
    ShiftOut(b, mask, data);
    SckLow(b);
    Append2(old(b.trace), SendLoop(old(b.pins), mask, data), [AfterSend(old(b.pins), mask, data)]);
  }

  method SramSendCommand(b: Board, command: bv8)
    requires b.Valid()
    modifies b
    ensures b.Valid()
    ensures b.pins == AfterSend(old(b.pins), 0x80, command as bv16)
    ensures b.sram == SendTo(Settle(old(b.sram), old(b.pins)), 0x80, command as bv16)
    ensures b.strip == old(b.strip)
    ensures b.trace == old(b.trace) + SendEvents(old(b.pins), 0x80, command as bv16)
  {
    SramSend(b, 0x80, command as bv16);
  }

  method SramSendAddress(b: Board, address: bv16)
    requires b.Valid()
    modifies b
    ensures b.Valid()
    ensures b.pins == AfterSend(old(b.pins), 0x8000, address)
    ensures b.sram == SendTo(Settle(old(b.sram), old(b.pins)), 0x8000, address)
    ensures b.strip == old(b.strip)
    ensures b.trace == old(b.trace) + SendEvents(old(b.pins), 0x8000, address)
  {
    SramSend(b, 0x8000, address);
  }

  // ---------------------------------------------------------------------------
  // Transactions

  /** No transaction in progress: CS high, HOLD high, SCK low. */
  predicate Idle(p: Pins)
  {
    p.sramCs == High && p.sramHold == High && p.sramClk == Low
  }

  /** Inside a running transaction: CS low, HOLD high, SCK low. */
  predicate Active(p: Pins)
  {
    p.sramCs == Low && p.sramHold == High && p.sramClk == Low
  }

  /** A byte stored and read back through the 16-bit shift register is unchanged. */
  lemma LoByte(x: bv8)
    ensures Lo(x as bv16) == x
  {
  }

  /** Pins after selecting the chip and sending an instruction and an address. */
  function AfterPreamble(p: Pins, command: bv8, address: bv16): Pins
  {
    AfterSend(AfterSend(Selecting(p), 0x80, command as bv16), 0x8000, address)
  }

  /** Port writes of selecting the chip and sending an instruction and an address. */
  function PreambleEvents(p: Pins, command: bv8, address: bv16): seq<Pins>
  {
    var p1 := Selecting(p);
    var p2 := AfterSend(p1, 0x80, command as bv16);
    SelectEvents(p) + SendEvents(p1, 0x80, command as bv16) + SendEvents(p2, 0x8000, address)
  }

  /**
   * The opening of a READ or WRITE transaction: select, instruction,
   * address. The chip ends up streaming from, or waiting for data for,
   * the address with its most significant bit dropped.
   */
  method SramPreamble(b: Board, command: bv8, address: bv16)
    requires b.Valid() && Idle(b.pins) && (command == READ || command == WRITE)
    modifies b
    ensures b.Valid() && Active(b.pins)
    ensures b.pins == AfterPreamble(old(b.pins), command, address)
    ensures b.sram.mem == old(b.sram.mem) && b.sram.status == old(b.sram.status)
    ensures command == READ ==> b.sram.session == Reading(Loc(address), 0)
    ensures command == WRITE ==> b.sram.session == Receive(DataByte(Loc(address)), 0, 0)
    ensures b.strip == old(b.strip)
    ensures b.trace == old(b.trace) + PreambleEvents(old(b.pins), command, address)
  {
    SramSelectChip(b);
    ReceiveByte(b.sram, command);
    SramSendCommand(b, command);
    ReceiveAddress(b.sram, address);
    SramSendAddress(b, address);
    Append3(old(b.trace), SelectEvents(old(b.pins)), SendEvents(Selecting(old(b.pins)), 0x80, command as bv16),
            SendEvents(AfterSend(Selecting(old(b.pins)), 0x80, command as bv16), 0x8000, address));
  }

  /** Port writes of sram_set_status. */
  function SetStatusEvents(p: Pins, status: bv8): seq<Pins>
  {
    var p1 := Selecting(p);
    var p2 := AfterSend(p1, 0x80, WRSR as bv16);
    var p3 := AfterSend(p2, 0x80, status as bv16);
    SelectEvents(p) + SendEvents(p1, 0x80, WRSR as bv16) + SendEvents(p2, 0x80, status as bv16)
    + [p3.(sramCs := High)]
  }

  /** sram_set_status: a WRSR transaction; the status register takes the byte sent, memory is untouched. */
  method SramSetStatus(b: Board, status: bv8)
    requires b.Valid() && Idle(b.pins)
    modifies b
    ensures b.Valid() && Idle(b.pins)
    ensures b.pins == old(b.pins).(sramOut := LevelOf(status & 1 != 0))
    ensures b.sram == old(b.sram).(status := status)
    ensures b.strip == old(b.strip)
    ensures b.trace == old(b.trace) + SetStatusEvents(old(b.pins), status)
  {
    SramSelectChip(b);
    ReceiveByte(b.sram, WRSR);
    SramSendCommand(b, WRSR);
    ReceiveByte(b.sram, status);
    LoByte(status);
    SramSend(b, 0x80, status as bv16);
    ghost var p3 := b.pins;
    SramDeselectChip(b);
    Append4(old(b.trace), SelectEvents(old(b.pins)), SendEvents(Selecting(old(b.pins)), 0x80, WRSR as bv16),
            SendEvents(AfterSend(Selecting(old(b.pins)), 0x80, WRSR as bv16), 0x80, status as bv16),
            [p3.(sramCs := High)]);
  }

  // ---------------------------------------------------------------------------
  // Reading: SCK pulses that shift SO out of the chip

  /** The port writes of n read clocks from pins p: SCK high, SCK low. */
  function PulseEvents(p: Pins, n: nat): seq<Pins>
  {
    if n == 0 then [] else PulseEvents(p, n - 1) + [p.(sramClk := High), p.(sramClk := Low)]
  }

  /** One read clock: SCK high, sample SO (P2IN & SRAM_IN), SCK low. */
  method ClockInBit(b: Board) returns (l: Level)
    requires b.Valid() && b.pins.sramClk == Low
    modifies b
    ensures b.Valid()
    ensures b.pins == old(b.pins)
    ensures l == Output(Rise(old(b.sram), old(b.pins.sramOut)))
    ensures b.sram == Pulse(old(b.sram), old(b.pins.sramOut))
    ensures b.strip == old(b.strip)
    ensures b.trace == old(b.trace) + [old(b.pins).(sramClk := High), old(b.pins).(sramClk := Low)]
  {
    SckHigh(b);
    l := b.SramIn();
    SckLow(b);
  }

  /** Pins after selecting the chip and sending an RDSR instruction. */
  function AfterRdsr(p: Pins): Pins
  {
    AfterSend(Selecting(p), 0x80, RDSR as bv16)
  }

  /** Port writes of sram_get_status. */
  function GetStatusEvents(p: Pins): seq<Pins>
  {
    SelectEvents(p) + SendEvents(Selecting(p), 0x80, RDSR as bv16) + PulseEvents(AfterRdsr(p), 8)
    + [AfterRdsr(p).(sramCs := High)]
  }

  /** The opening of an RDSR transaction: select and instruction; the chip starts shifting out its status. */
  method SramRdsrPreamble(b: Board)
    requires b.Valid() && Idle(b.pins)
    modifies b
    ensures b.Valid() && Active(b.pins)
    ensures b.pins == AfterRdsr(old(b.pins))
    ensures b.sram == old(b.sram).(session := StatusReading(0))
    ensures b.strip == old(b.strip)
    ensures b.trace == old(b.trace) + SelectEvents(old(b.pins)) + SendEvents(Selecting(old(b.pins)), 0x80, RDSR as bv16)
  {
    SramSelectChip(b);
    ReceiveByte(b.sram, RDSR);
    SramSendCommand(b, RDSR);
  }

  /** One read clock of an RDSR transaction: SO carries status bit k. */
  method ClockInStatusBit(b: Board, ghost k: nat) returns (l: Level)
    requires b.Valid() && Active(b.pins) && k < 8 && b.sram.session == StatusReading(k)
    modifies b
    ensures b.Valid()
    ensures b.pins == old(b.pins)
    ensures l == BitAt(old(b.sram.status), k)
    ensures b.sram == old(b.sram).(session := StatusReading((k + 1) % 8))
    ensures b.strip == old(b.strip)
    ensures b.trace == old(b.trace) + [old(b.pins).(sramClk := High), old(b.pins).(sramClk := Low)]
  {
    l := ClockInBit(b);
  }

  /** What sram_get_status returns, as written: SRAM_IN (0x04) when any status bit is one, else 0. */
  function StatusAsRead(status: bv8): (r: bv8)
    ensures r & !0x04 == 0
    ensures r == 0 <==> status == 0
  {
    if status != 0 then 0x04 else 0x00
  }

  /** The result of sram_get_status as written after clocking from mask m down: SRAM_IN ORed in for each one bit. */
  function GatherIn(status: bv8, acc: bv8, m: bv8): bv8
    decreases m
  {
    if m == 0 then acc else GatherIn(status, if status & m != 0 then acc | 0x04 else acc, m >> 1)
  }

  /** The result of the corrected loop after clocking from mask m down: each one bit ORed in at its own position. */
  function GatherOr(status: bv8, acc: bv8, m: bv8): bv8
    decreases m
  {
    if m == 0 then acc else GatherOr(status, if status & m != 0 then acc | m else acc, m >> 1)
  }

  /** One pass of either loop: the bit under m decides what is ORed in, and the mask moves on. */
  lemma GatherStep(status: bv8, acc: bv8, m: bv8)
    requires m != 0
    ensures GatherIn(status, acc, m) == GatherIn(status, if status & m != 0 then acc | 0x04 else acc, m >> 1)
    ensures GatherOr(status, acc, m) == GatherOr(status, if status & m != 0 then acc | m else acc, m >> 1)
  {
  }

  /** The as-written loop adds SRAM_IN exactly when a status bit at or below m is one. */
  lemma {:induction false} GatherInBelow(status: bv8, acc: bv8, m: bv8)
    requires OneBit(m)
    ensures GatherIn(status, acc, m) == if status & Below(m) != 0 then acc | 0x04 else acc
    decreases m
  {
    if m != 0 {
      BelowShift(m);
      GatherInBelow(status, if status & m != 0 then acc | 0x04 else acc, m >> 1);
    }
  }

  /** The corrected loop adds the status bits at and below m. */
  lemma {:induction false} GatherOrBelow(status: bv8, acc: bv8, m: bv8)
    requires OneBit(m)
    ensures GatherOr(status, acc, m) == acc | (status & Below(m))
    decreases m
  {
    if m != 0 {
      BelowShift(m);
      GatherOrBelow(status, if status & m != 0 then acc | m else acc, m >> 1);
    }
  }

  /** Clocked from 0x80 down, the as-written loop returns 0x04 or 0, the corrected one the status. */
  lemma GatherStatus(status: bv8)
    ensures GatherIn(status, 0, 0x80) == StatusAsRead(status)
    ensures GatherOr(status, 0, 0x80) == status
  {
    GatherInBelow(status, 0, 0x80);
    GatherOrBelow(status, 0, 0x80);
  }

  /** The status as read back equals the status only for the two values 0x00 and 0x04. */
  lemma StatusAsReadLoses(status: bv8)
    ensures StatusAsRead(status) == status <==> status == 0x00 || status == 0x04
    ensures StatusAsRead(SequentialMode) == 0x04
  {
  }

  /** The clocking loop of sram_get_status as written: SRAM_IN ORed into the result for each one bit. */
  method ClockInStatusAsWritten(b: Board) returns (data: bv8)
    requires b.Valid() && Active(b.pins) && b.sram.session == StatusReading(0)
    modifies b
    ensures b.Valid() && b.pins == old(b.pins)
    ensures data == StatusAsRead(old(b.sram.status))
    ensures b.sram == old(b.sram)
    ensures b.strip == old(b.strip)
    ensures b.trace == old(b.trace) + PulseEvents(old(b.pins), 8)
  {
    data := 0x00;
    var m: bv8 := 0x80;
    ghost var k := 0;
    while m > 0
      invariant 0 <= k <= 8 && m == Mask(k) && (m != 0 <==> k < 8)
      invariant b.Valid() && b.pins == old(b.pins)
      invariant b.sram == old(b.sram).(session := StatusReading(k % 8))
      invariant GatherIn(b.sram.status, data, m) == GatherIn(b.sram.status, 0, 0x80)
      invariant b.strip == old(b.strip)
      invariant b.trace == old(b.trace) + PulseEvents(old(b.pins), k)
      decreases 8 - k
    {
      var l := ClockInStatusBit(b, k);
      GatherStep(b.sram.status, data, m);
      if l == High {
        data := data | 0x04;
      }
      m := m >> 1;
      k := k + 1;
      MaskTables(k);
    }
    GatherStatus(b.sram.status);
  }

  /** The clocking loop with each one bit ORed in at its own position (the mask). */
  method ClockInStatus(b: Board) returns (data: bv8)
    requires b.Valid() && Active(b.pins) && b.sram.session == StatusReading(0)
    modifies b
    ensures b.Valid() && b.pins == old(b.pins)
    ensures data == old(b.sram.status)
    ensures b.sram == old(b.sram)
    ensures b.strip == old(b.strip)
    ensures b.trace == old(b.trace) + PulseEvents(old(b.pins), 8)
  {
    data := 0x00;
    var m: bv8 := 0x80;
    ghost var k := 0;
    while m > 0
      invariant 0 <= k <= 8 && m == Mask(k) && (m != 0 <==> k < 8)
      invariant b.Valid() && b.pins == old(b.pins)
      invariant b.sram == old(b.sram).(session := StatusReading(k % 8))
      invariant GatherOr(b.sram.status, data, m) == GatherOr(b.sram.status, 0, 0x80)
      invariant b.strip == old(b.strip)
      invariant b.trace == old(b.trace) + PulseEvents(old(b.pins), k)
      decreases 8 - k
    {
      var l := ClockInStatusBit(b, k);
      GatherStep(b.sram.status, data, m);
      if l == High {
        data := data | m;
      }
      m := m >> 1;
      k := k + 1;
      MaskTables(k);
    }
    GatherStatus(b.sram.status);
  }

  /**
   * sram_get_status as written: an RDSR transaction returning 0x04 for
   * any non-zero status and 0 for a zero status.
   */
  method SramGetStatus(b: Board) returns (data: bv8)
    requires b.Valid() && Idle(b.pins)
    modifies b
    ensures b.Valid() && Idle(b.pins)
    ensures data == StatusAsRead(old(b.sram.status))
    ensures b.pins == AfterRdsr(old(b.pins)).(sramCs := High)
    ensures b.sram == old(b.sram)
    ensures b.strip == old(b.strip)
    ensures b.trace == old(b.trace) + GetStatusEvents(old(b.pins))
  {
    ghost var p := old(b.pins);
    SramRdsrPreamble(b);
    data := ClockInStatusAsWritten(b);
    SramDeselectChip(b);
    Append4(old(b.trace), SelectEvents(p), SendEvents(Selecting(p), 0x80, RDSR as bv16), PulseEvents(AfterRdsr(p), 8),
            [AfterRdsr(p).(sramCs := High)]);
  }

  /** sram_get_status corrected: an RDSR transaction returning the status register. */
  method SramGetStatusFixed(b: Board) returns (data: bv8)
    requires b.Valid() && Idle(b.pins)
    modifies b
    ensures b.Valid() && Idle(b.pins)
    ensures data == old(b.sram.status)
    ensures b.pins == AfterRdsr(old(b.pins)).(sramCs := High)
    ensures b.sram == old(b.sram)
    ensures b.strip == old(b.strip)
    ensures b.trace == old(b.trace) + GetStatusEvents(old(b.pins))
  {
    ghost var p := old(b.pins);
    SramRdsrPreamble(b);
    data := ClockInStatus(b);
    SramDeselectChip(b);
    Append4(old(b.trace), SelectEvents(p), SendEvents(Selecting(p), 0x80, RDSR as bv16), PulseEvents(AfterRdsr(p), 8),
            [AfterRdsr(p).(sramCs := High)]);
  }

  // ---------------------------------------------------------------------------
  // Initialisation

  /** Port writes of sram_init. */
  function InitEvents(p: Pins): seq<Pins>
  {
    var p1 := p.(sramClk := Low);
    var p2 := p1.(sramOut := Low);
    var p3 := p2.(sramHold := Low);
    var p4 := p3.(sramCs := High, sramHold := High);
    [p1, p2, p3, p4] + SetStatusEvents(p4, SequentialMode)
  }

  /**
   * sram_init: SCK low, SI low, HOLD low, then CS and HOLD high together,
   * and sequential mode set. Memory is untouched whatever the lines were.
   */
  method SramInit(b: Board)
    requires b.Valid()
    modifies b
    ensures b.Valid() && Idle(b.pins)
    ensures b.pins == old(b.pins).(sramClk := Low, sramOut := Low, sramHold := High, sramCs := High)
    ensures b.sram == old(b.sram).(status := SequentialMode, session := Deselected)
    ensures b.strip == old(b.strip)
    ensures b.trace == old(b.trace) + InitEvents(old(b.pins))
  {
    b.Write(b.pins.(sramClk := Low));
    b.Write(b.pins.(sramOut := Low));
    b.Write(b.pins.(sramHold := Low));
    b.Write(b.pins.(sramCs := High, sramHold := High));
    ghost var t4 := b.trace;
    SramSetStatus(b, SequentialMode);
    assert b.trace == t4 + SetStatusEvents(b.trace[|t4| - 1], SequentialMode);
  }

  // ---------------------------------------------------------------------------
  // Writing

  /** The number of iterations of a `for (i = 0; i < n; i++)` loop over a signed count. */
  function Clamp(n: int): (r: nat)
    ensures n <= 0 ==> r == 0
    ensures n >= 0 ==> r == n
  {
    if n < 0 then 0 else n
  }

  /** Pins after sending bytes one after another with sram_send(0x80, ...). */
  function AfterBytes(p: Pins, bytes: seq<bv8>): Pins
  {
    if bytes == [] then p else AfterSend(p, 0x80, bytes[|bytes| - 1] as bv16)
  }

  /** Port writes of sending bytes one after another with sram_send(0x80, ...). */
  function BytesEvents(p: Pins, bytes: seq<bv8>): seq<Pins>
    decreases |bytes|
  {
    if bytes == [] then []
    else
      var init := bytes[..|bytes| - 1];
      BytesEvents(p, init) + SendEvents(AfterBytes(p, init), 0x80, bytes[|bytes| - 1] as bv16)
  }

  /** One more byte sent extends the port writes by one sram_send and moves the pins on. */
  lemma BytesNext(p: Pins, bytes: seq<bv8>, x: bv8)
    ensures BytesEvents(p, bytes + [x]) == BytesEvents(p, bytes) + SendEvents(AfterBytes(p, bytes), 0x80, x as bv16)
    ensures AfterBytes(p, bytes + [x]) == AfterSend(AfterBytes(p, bytes), 0x80, x as bv16)
  {
    assert (bytes + [x])[..|bytes|] == bytes;
  }

  /** The WRITE stream as far as byte i of data, with the chip waiting for the next byte. */
  ghost predicate Writing(b: Board, d: Device, p: Pins, t: seq<Pins>, a: nat, data: seq<bv8>)
    reads b
    requires a < MemSize && |d.mem| == MemSize
  {
    b.Valid() && Active(b.pins) && b.pins == AfterBytes(p, data)
    && b.sram == d.(mem := Store(d.mem, d.status, a, data), session := Receive(DataByte(Advance(d.status, a, |data|)), 0, 0))
    && b.trace == t + BytesEvents(p, data)
  }

  /** One pass of sram_write_bytes's loop: sram_send(0x80, data[i]); the chip stores the byte and moves its pointer on. */
  method SendDataByte(b: Board, x: bv8, ghost d: Device, ghost p: Pins, ghost t: seq<Pins>, ghost a: nat, ghost sent: seq<bv8>)
    requires a < MemSize && |d.mem| == MemSize && Writing(b, d, p, t, a, sent)
    modifies b
    ensures Writing(b, d, p, t, a, sent + [x])
    ensures b.strip == old(b.strip)
  {
    ghost var loc := Advance(d.status, a, |sent|);
    ReceiveByte(b.sram, x);
    LoByte(x);
    SramSend(b, 0x80, x as bv16);
    BytesNext(p, sent, x);
    Append2(t, BytesEvents(p, sent), SendEvents(AfterBytes(p, sent), 0x80, x as bv16));
    assert (sent + [x])[..|sent|] == sent;
    assert Store(d.mem, d.status, a, sent + [x]) == Store(d.mem, d.status, a, sent)[loc := x];
  }

  /** Port writes of sram_write_bytes. */
  function WriteEvents(p: Pins, address: bv16, bytes: seq<bv8>): seq<Pins>
  {
    var p1 := AfterPreamble(p, WRITE, address);
    PreambleEvents(p, WRITE, address) + BytesEvents(p1, bytes) + [AfterBytes(p1, bytes).(sramCs := High)]
  }

  /**
   * sram_write_bytes: a WRITE transaction of the first num_bytes bytes of
   * data (none for a negative count) from the given address on.
   */
  method SramWriteBytes(b: Board, address: bv16, data: array<bv8>, numBytes: int)
    requires b.Valid() && Idle(b.pins) && numBytes <= data.Length
    modifies b
    ensures b.Valid() && Idle(b.pins)
    ensures b.pins == AfterBytes(AfterPreamble(old(b.pins), WRITE, address), data[..Clamp(numBytes)]).(sramCs := High)
    ensures b.sram == old(b.sram).(mem := Store(old(b.sram.mem), old(b.sram.status), Loc(address), data[..Clamp(numBytes)]))
    ensures b.strip == old(b.strip)
    ensures b.trace == old(b.trace) + WriteEvents(old(b.pins), address, data[..Clamp(numBytes)])
  {
    SramPreamble(b, WRITE, address);
    ghost var d, p1, t1 := old(b.sram), b.pins, b.trace;
    ghost var a := Loc(address);
    var i := 0;
    while i < numBytes
      invariant 0 <= i <= Clamp(numBytes)
      invariant Writing(b, d, p1, t1, a, data[..i])
      invariant b.strip == old(b.strip)
    {
      assert data[..i + 1] == data[..i] + [data[i]];
      SendDataByte(b, data[i], d, p1, t1, a, data[..i]);
      i := i + 1;
    }
    ghost var sent := data[..Clamp(numBytes)];
    assert sent == data[..i];
    assert Writing(b, d, p1, t1, a, sent);
    ghost var p2 := b.pins;
    SramDeselectChip(b);
    assert b.sram == d.(mem := Store(d.mem, d.status, a, sent), session := Deselected);
    Append3(old(b.trace), PreambleEvents(old(b.pins), WRITE, address), BytesEvents(p1, sent), [p2.(sramCs := High)]);
  }

  /** sram_write_byte: a one-byte WRITE. */
  method SramWriteByte(b: Board, address: bv16, x: bv8)
    requires b.Valid() && Idle(b.pins)
    modifies b
    ensures b.Valid() && Idle(b.pins)
    ensures b.sram == old(b.sram).(mem := old(b.sram.mem)[Loc(address) := x])
    ensures b.strip == old(b.strip)
    ensures b.trace == old(b.trace) + WriteEvents(old(b.pins), address, [x])
  {
    var data := new bv8[1];
    data[0] := x;
    assert data[..Clamp(1)] == [x];
    SramWriteBytes(b, address, data, 1);
  }

  // ---------------------------------------------------------------------------
  // Reading memory

  /** One read clock of a READ transaction: SO carries bit k of the byte at the pointer. */
  method ClockInDataBit(b: Board, ghost k: nat) returns (l: Level)
    requires b.Valid() && Active(b.pins) && k < 8 && b.sram.session.Reading? && b.sram.session.bit == k
    modifies b
    ensures b.Valid()
    ensures b.pins == old(b.pins)
    ensures l == BitAt(old(b.sram.mem[b.sram.session.addr]), k)
    ensures b.sram == old(b.sram).(session :=
              if k < 7 then Reading(old(b.sram.session.addr), k + 1)
              else Reading(NextAddress(old(b.sram.status), old(b.sram.session.addr)), 0))
    ensures b.strip == old(b.strip)
    ensures b.trace == old(b.trace) + [old(b.pins).(sramClk := High), old(b.pins).(sramClk := Low)]
  {
    l := ClockInBit(b);
  }

  /**
   * One pass of the read routines' inner loop for mask bit m = Mask(k):
   * SCK high, data[i] |= m when SO is high and data[i] &= ~m when it is
   * low, SCK low.
   */
  method ReadBitInto(b: Board, data: array<bv8>, i: nat, m: bv8, ghost k: nat, ghost v: bv8, ghost x: bv8)
    returns (next: bv8)
    requires b.Valid() && Active(b.pins) && k < 8 && m == Mask(k)
    requires b.sram.session.Reading? && b.sram.session.bit == k && v == b.sram.mem[b.sram.session.addr]
    requires i < data.Length && data[i] == Overlay(v, x, m)
    modifies b, data
    ensures next == Mask(k + 1) && (next != 0 <==> k + 1 < 8)
    ensures b.Valid() && b.pins == old(b.pins)
    ensures b.sram == old(b.sram).(session :=
              if k < 7 then Reading(old(b.sram.session.addr), k + 1)
              else Reading(NextAddress(old(b.sram.status), old(b.sram.session.addr)), 0))
    ensures data[..] == old(data[..])[i := Overlay(v, x, next)]
    ensures b.strip == old(b.strip)
    ensures b.trace == old(b.trace) + [old(b.pins).(sramClk := High), old(b.pins).(sramClk := Low)]
  {
    MaskTables(k);
    MaskTables(k + 1);
    OverlayStep(v, x, m);
    var l := ClockInDataBit(b, k);
    next := m >> 1;
    TakeBit(data, i, m, l);
  }

  /** data[i] |= m when the line is high, data[i] &= ~m when it is low. */
  method TakeBit(data: array<bv8>, i: nat, m: bv8, l: Level)
    requires i < data.Length
    modifies data
    ensures data[..] == old(data[..])[i := if l == High then old(data[i]) | m else old(data[i]) & !m]
  {
    if l == High {
      data[i] := data[i] | m;
    } else {
      data[i] := data[i] & !m;
    }
  }

  /**
   * The inner loop of the read routines: eight read clocks, each setting
   * or clearing one bit of data[i] from the most significant down.
   */
  method ClockInByte(b: Board, data: array<bv8>, i: nat)
    requires b.Valid() && Active(b.pins) && b.sram.session.Reading? && b.sram.session.bit == 0
    requires i < data.Length
    modifies b, data
    ensures b.Valid()
    ensures b.pins == old(b.pins)
    ensures data[..] == old(data[..])[i := old(b.sram.mem[b.sram.session.addr])]
    ensures b.sram == old(b.sram).(session := Reading(NextAddress(old(b.sram.status), old(b.sram.session.addr)), 0))
    ensures b.strip == old(b.strip)
    ensures b.trace == old(b.trace) + PulseEvents(old(b.pins), 8)
  {
    ghost var a := b.sram.session.addr;
    ghost var v := b.sram.mem[a];
    ghost var x := data[i];
    OverlayEnds(v, x);
    var m: bv8 := 0x80;
    ghost var k := 0;
    while m > 0
      invariant 0 <= k <= 8 && m == Mask(k) && (m != 0 <==> k < 8)
      invariant b.Valid() && b.pins == old(b.pins)
      invariant b.sram == old(b.sram).(session := if k < 8 then Reading(a, k) else Reading(NextAddress(b.sram.status, a), 0))
      invariant data[..] == old(data[..])[i := data[i]]
      invariant data[i] == Overlay(v, x, m)
      invariant b.strip == old(b.strip)
      invariant b.trace == old(b.trace) + PulseEvents(old(b.pins), k)
      decreases 8 - k
    {
      m := ReadBitInto(b, data, i, m, k, v, x);
      k := k + 1;
    }
    OverlayEnds(v, x);
  }

  /** Port writes of n bytes' worth of read clocks. */
  function ReadEvents(p: Pins, n: nat): seq<Pins>
  {
    if n == 0 then [] else ReadEvents(p, n - 1) + PulseEvents(p, 8)
  }

  /**
   * The byte loop of the read routines: num_bytes bytes (none for a
   * negative count) clocked into data from the pointer on.
   */
  method ClockInBytes(b: Board, data: array<bv8>, numBytes: int)
    requires b.Valid() && Active(b.pins) && b.sram.session.Reading? && b.sram.session.bit == 0
    requires numBytes <= data.Length
    modifies b, data
    ensures b.Valid()
    ensures b.pins == old(b.pins)
    ensures data[..] ==
              Fetch(old(b.sram.mem), old(b.sram.status), old(b.sram.session.addr), Clamp(numBytes))
              + old(data[..])[Clamp(numBytes)..]
    ensures b.sram == old(b.sram).(session :=
              Reading(Advance(old(b.sram.status), old(b.sram.session.addr), Clamp(numBytes)), 0))
    ensures b.strip == old(b.strip)
    ensures b.trace == old(b.trace) + ReadEvents(old(b.pins), Clamp(numBytes))
  {
    ghost var a := b.sram.session.addr;
    var i := 0;
    while i < numBytes
      invariant 0 <= i <= Clamp(numBytes)
      invariant BytesRead(b, data, old(b.sram), old(b.pins), old(b.trace), old(data[..]), a, i)
      invariant b.strip == old(b.strip)
    {
      ReadByteStep(b, data, old(b.sram), old(b.pins), old(b.trace), old(data[..]), a, i);
      i := i + 1;
    }
  }

  /** One pass of the byte loop: the byte at the pointer lands in data[i]. */
  method ReadByteStep(b: Board, data: array<bv8>, ghost d: Device, ghost p: Pins, ghost t: seq<Pins>,
                      ghost o: seq<bv8>, ghost a: nat, i: nat)
    requires Ok(d) && a < MemSize && Active(p) && i < |o|
    requires BytesRead(b, data, d, p, t, o, a, i)
    modifies b, data
    ensures BytesRead(b, data, d, p, t, o, a, i + 1)
    ensures b.strip == old(b.strip)
  {
    ClockInByte(b, data, i);
    FetchNext(d.mem, d.status, a, i);
    Splice(Fetch(d.mem, d.status, a, i), o, d.mem[Advance(d.status, a, i)]);
    Append2(t, ReadEvents(p, i), PulseEvents(p, 8));
  }

  /** The state of the read routines' byte loop once i bytes from a are read into data, which held o. */
  ghost predicate BytesRead(b: Board, data: array<bv8>, d: Device, p: Pins, t: seq<Pins>, o: seq<bv8>, a: nat, i: nat)
    reads b, data
    requires Ok(d) && a < MemSize
  {
    && i <= |o| == data.Length
    && b.Valid() && b.pins == p
    && data[..] == Fetch(d.mem, d.status, a, i) + o[i..]
    && b.sram == d.(session := Reading(Advance(d.status, a, i), 0))
    && b.trace == t + ReadEvents(p, i)
  }

  /** Overwriting the first element of the unread rest moves it to the part read. */
  lemma Splice(f: seq<bv8>, o: seq<bv8>, v: bv8)
    requires |f| < |o|
    ensures (f + o[|f|..])[|f| := v] == (f + [v]) + o[|f| + 1..]
  {
  }

  /** Port writes of sram_read_bytes. */
  function ReadBytesEvents(p: Pins, address: bv16, n: nat): seq<Pins>
  {
    var p1 := AfterPreamble(p, READ, address);
    PreambleEvents(p, READ, address) + ReadEvents(p1, n) + [p1.(sramCs := High)]
  }

  /** sram_read_bytes: a READ transaction of num_bytes bytes from the given address on. */
  method SramReadBytes(b: Board, address: bv16, data: array<bv8>, numBytes: int)
    requires b.Valid() && Idle(b.pins) && numBytes <= data.Length
    modifies b, data
    ensures b.Valid() && Idle(b.pins)
    ensures data[..] == Fetch(old(b.sram.mem), old(b.sram.status), Loc(address), Clamp(numBytes))
                        + old(data[..])[Clamp(numBytes)..]
    ensures b.pins == AfterPreamble(old(b.pins), READ, address).(sramCs := High)
    ensures b.sram == old(b.sram)
    ensures b.strip == old(b.strip)
    ensures b.trace == old(b.trace) + ReadBytesEvents(old(b.pins), address, Clamp(numBytes))
  {
    SramPreamble(b, READ, address);
    ClockInBytes(b, data, numBytes);
    SramDeselectChip(b);
    Append3(old(b.trace), PreambleEvents(old(b.pins), READ, address),
            ReadEvents(AfterPreamble(old(b.pins), READ, address), Clamp(numBytes)),
            [AfterPreamble(old(b.pins), READ, address).(sramCs := High)]);
  }

  /** Port writes of sram_start_read. */
  function StartReadEvents(p: Pins, address: bv16, n: nat): seq<Pins>
  {
    var p1 := AfterPreamble(p, READ, address);
    PreambleEvents(p, READ, address) + ReadEvents(p1, n) + [p1.(sramHold := Low)]
  }

  /**
   * sram_start_read: the READ transaction of sram_read_bytes, left paused
   * with HOLD low instead of ended, so that it can be continued.
   */
  method SramStartRead(b: Board, address: bv16, data: array<bv8>, numBytes: int)
    requires b.Valid() && Idle(b.pins) && numBytes <= data.Length
    modifies b, data
    ensures b.Valid()
    ensures data[..] == Fetch(old(b.sram.mem), old(b.sram.status), Loc(address), Clamp(numBytes))
                        + old(data[..])[Clamp(numBytes)..]
    ensures b.pins == AfterPreamble(old(b.pins), READ, address).(sramHold := Low)
    ensures b.sram == old(b.sram).(session := Held(Reading(Advance(old(b.sram.status), Loc(address), Clamp(numBytes)), 0)))
    ensures b.strip == old(b.strip)
    ensures b.trace == old(b.trace) + StartReadEvents(old(b.pins), address, Clamp(numBytes))
  {
    SramPreamble(b, READ, address);
    ClockInBytes(b, data, numBytes);
    SramHold(b);
    Append3(old(b.trace), PreambleEvents(old(b.pins), READ, address),
            ReadEvents(AfterPreamble(old(b.pins), READ, address), Clamp(numBytes)),
            [AfterPreamble(old(b.pins), READ, address).(sramHold := Low)]);
  }

  /** A READ transaction paused by HOLD between bytes, with SCK low. */
  predicate Paused(p: Pins)
  {
    p.sramCs == Low && p.sramHold == Low && p.sramClk == Low
  }

  /** Port writes of sram_continue_read. */
  function ContinueReadEvents(p: Pins, n: nat): seq<Pins>
  {
    [p.(sramHold := High)] + ReadEvents(p.(sramHold := High), n) + [p]
  }

  /** sram_continue_read: resume a paused READ, clock in num_bytes more bytes, and pause it again. */
  method SramContinueRead(b: Board, data: array<bv8>, numBytes: int)
    requires b.Valid() && Paused(b.pins)
    requires b.sram.session.Held? && b.sram.session.paused.Reading? && b.sram.session.paused.bit == 0
    requires numBytes <= data.Length
    modifies b, data
    ensures b.Valid()
    ensures data[..] ==
              Fetch(old(b.sram.mem), old(b.sram.status), old(b.sram.session.paused.addr), Clamp(numBytes))
              + old(data[..])[Clamp(numBytes)..]
    ensures b.pins == old(b.pins)
    ensures b.sram == old(b.sram).(session :=
              Held(Reading(Advance(old(b.sram.status), old(b.sram.session.paused.addr), Clamp(numBytes)), 0)))
    ensures b.strip == old(b.strip)
    ensures b.trace == old(b.trace) + ContinueReadEvents(old(b.pins), Clamp(numBytes))
  {
    SramUnhold(b);
    ClockInBytes(b, data, numBytes);
    SramHold(b);
    Append3(old(b.trace), [old(b.pins).(sramHold := High)], ReadEvents(old(b.pins).(sramHold := High), Clamp(numBytes)),
            [old(b.pins)]);
  }

  /** sram_finish_read: resume the paused transaction and end it. */
  method SramFinishRead(b: Board)
    requires b.Valid() && b.pins.sramClk == Low
    modifies b
    ensures b.Valid() && Idle(b.pins)
    ensures b.pins == old(b.pins).(sramHold := High, sramCs := High)
    ensures b.sram == old(b.sram).(session := Deselected)
    ensures b.strip == old(b.strip)
    ensures b.trace == old(b.trace) + [old(b.pins).(sramHold := High), old(b.pins).(sramHold := High, sramCs := High)]
  {
    SramUnhold(b);
    SramDeselectChip(b);
  }

  /** sram_read_byte: a one-byte READ. */
  method SramReadByte(b: Board, address: bv16) returns (x: bv8)
    requires b.Valid() && Idle(b.pins)
    modifies b
    ensures b.Valid() && Idle(b.pins)
    ensures x == old(b.sram.mem[Loc(address)])
    ensures b.sram == old(b.sram)
    ensures b.strip == old(b.strip)
    ensures b.trace == old(b.trace) + ReadBytesEvents(old(b.pins), address, 1)
  {
    var data := new bv8[1];
    SramReadBytes(b, address, data, 1);
    x := data[0];
    assert data[..1][0] == x;
  }

  // ---------------------------------------------------------------------------
  // Round trips

  /** sram_read_byte after sram_write_byte at the same address returns the byte written. */
  method WriteThenReadByte(b: Board, address: bv16, x: bv8) returns (y: bv8)
    requires b.Valid() && Idle(b.pins)
    modifies b
    ensures b.Valid() && Idle(b.pins)
    ensures y == x
    ensures b.sram == old(b.sram).(mem := old(b.sram.mem)[Loc(address) := x])
  {
    SramWriteByte(b, address, x);
    y := SramReadByte(b, address);
  }

  /**
   * In sequential mode, sram_read_bytes after sram_write_bytes of the same
   * count (at most the array's size) at the same address returns the bytes
   * written.
   */
  method WriteThenReadBytes(b: Board, address: bv16, data: array<bv8>, back: array<bv8>, numBytes: int)
    requires b.Valid() && Idle(b.pins) && Sequential(b.sram.status) && data != back
    requires numBytes <= data.Length && numBytes <= back.Length && numBytes <= MemSize
    modifies b, back
    ensures b.Valid() && Idle(b.pins)
    ensures back[..Clamp(numBytes)] == data[..Clamp(numBytes)]
  {
    SramWriteBytes(b, address, data, numBytes);
    ghost var sent := data[..Clamp(numBytes)];
    SequentialDistinct(old(b.sram.status), Loc(address), Clamp(numBytes));
    WriteThenRead(old(b.sram.mem), old(b.sram.status), Loc(address), sent);
    SramReadBytes(b, address, back, numBytes);
    assert back[..Clamp(numBytes)] == Fetch(b.sram.mem, b.sram.status, Loc(address), Clamp(numBytes));
  }

  /**
   * sram_start_read, then sram_continue_read, then sram_finish_read: the
   * two pieces read are what one READ of their total length returns, and
   * the transaction ends with the chip deselected.
   */
  method SplitRead(b: Board, address: bv16, d1: array<bv8>, n1: int, d2: array<bv8>, n2: int)
    requires b.Valid() && Idle(b.pins) && d1 != d2 && n1 <= d1.Length && n2 <= d2.Length
    modifies b, d1, d2
    ensures b.Valid() && Idle(b.pins)
    ensures b.sram == old(b.sram)
    ensures d1[..Clamp(n1)] + d2[..Clamp(n2)] ==
              Fetch(old(b.sram.mem), old(b.sram.status), Loc(address), Clamp(n1) + Clamp(n2))
    ensures d1[Clamp(n1)..] == old(d1[Clamp(n1)..]) && d2[Clamp(n2)..] == old(d2[Clamp(n2)..])
  {
    ghost var mem, status, a := b.sram.mem, b.sram.status, Loc(address);
    SramStartRead(b, address, d1, n1);
    ghost var r1 := d1[..Clamp(n1)];
    assert r1 == Fetch(mem, status, a, Clamp(n1));
    SramContinueRead(b, d2, n2);
    assert d2[..Clamp(n2)] == Fetch(mem, status, Advance(status, a, Clamp(n1)), Clamp(n2));
    SramFinishRead(b);
    FetchSplit(mem, status, a, Clamp(n1), Clamp(n2));
  }

  /** The bytes a run of sram_continue_read calls asks for: the `long` counts, each clamped at zero. */
  function Total(counts: seq<int>): (n: nat)
    ensures counts == [] ==> n == 0
  {
    if counts == [] then 0 else Total(counts[..|counts| - 1]) + Clamp(counts[|counts| - 1])
  }

  /** The first Clamp(counts[j]) bytes of each buffer j, buffer after buffer. */
  ghost function Pieces(bufs: seq<array<bv8>>, counts: seq<int>): seq<bv8>
    requires |bufs| == |counts| && forall j | 0 <= j < |bufs| :: counts[j] <= bufs[j].Length
    reads set j | 0 <= j < |bufs| :: bufs[j]
  {
    if bufs == [] then []
    else
      var n := |bufs| - 1;
      Pieces(bufs[..n], counts[..n]) + bufs[n][..Clamp(counts[n])]
  }

  /**
   * sram_start_read into `first`, then sram_continue_read into each buffer
   * of `rest` in turn, then sram_finish_read: the pieces read, one after the
   * other, are what one READ of their total length returns; memory and
   * status are unchanged and every buffer keeps the elements after its piece.
   */
  method ChunkedRead(b: Board, address: bv16, first: array<bv8>, n0: int, rest: seq<array<bv8>>, counts: seq<int>)
    requires b.Valid() && Idle(b.pins) && n0 <= first.Length
    requires |rest| == |counts| && forall j | 0 <= j < |rest| :: counts[j] <= rest[j].Length
    requires forall j | 0 <= j < |rest| :: rest[j] != first
    requires forall i, j | 0 <= i < j < |rest| :: rest[i] != rest[j]
    modifies b, first, set j | 0 <= j < |rest| :: rest[j]
    ensures b.Valid() && Idle(b.pins)
    ensures b.sram == old(b.sram)
    ensures b.strip == old(b.strip)
    ensures first[..Clamp(n0)] + Pieces(rest, counts) ==
              Fetch(old(b.sram.mem), old(b.sram.status), Loc(address), Clamp(n0) + Total(counts))
    ensures first[Clamp(n0)..] == old(first[Clamp(n0)..])
    ensures forall j | 0 <= j < |rest| :: rest[j][Clamp(counts[j])..] == old(rest[j][Clamp(counts[j])..])
  {
    ghost var mem, status, a := b.sram.mem, b.sram.status, Loc(address);
    SramStartRead(b, address, first, n0);
    ContinueAll(b, rest, counts, mem, status, a, first[..Clamp(n0)]);
    SramFinishRead(b);
  }

  /**
   * The sram_continue_read calls of a chunked read: buffer j receives the
   * next Clamp(counts[j]) bytes of the transfer, after the bytes `got`
   * already read.
   */
  method ContinueAll(b: Board, rest: seq<array<bv8>>, counts: seq<int>, ghost mem: seq<bv8>, ghost status: bv8,
                     ghost a: nat, ghost got: seq<bv8>)
    requires b.Valid() && Paused(b.pins) && |mem| == MemSize && a < MemSize
    requires |rest| == |counts| && forall j | 0 <= j < |rest| :: counts[j] <= rest[j].Length
    requires forall i, j | 0 <= i < j < |rest| :: rest[i] != rest[j]
    requires b.sram == Device(mem, status, Held(Reading(Advance(status, a, |got|), 0)))
    requires got == Fetch(mem, status, a, |got|)
    modifies b, set j | 0 <= j < |rest| :: rest[j]
    ensures b.Valid() && Paused(b.pins) && b.strip == old(b.strip)
    ensures b.sram == Device(mem, status, Held(Reading(Advance(status, a, |got| + Total(counts)), 0)))
    ensures got + Pieces(rest, counts) == Fetch(mem, status, a, |got| + Total(counts))
    ensures forall j | 0 <= j < |rest| :: rest[j][Clamp(counts[j])..] == old(rest[j][Clamp(counts[j])..])
  {
    ghost var acc := got;
    var k := 0;
    while k < |rest|
      invariant Continuing(b, rest, counts, mem, status, a, got, old(b.strip), acc, k)
      invariant forall j | 0 <= j < |rest| :: rest[j][Clamp(counts[j])..] == old(rest[j][Clamp(counts[j])..])
    {
      acc := ContinueStep(b, rest, counts, mem, status, a, got, old(b.strip), acc, k);
      k := k + 1;
    }
    assert rest[..k] == rest && counts[..k] == counts;
  }

  /** The state of ContinueAll after k buffers, the bytes read so far being acc. */
  ghost predicate Continuing(b: Board, rest: seq<array<bv8>>, counts: seq<int>, mem: seq<bv8>, status: bv8, a: nat,
                             got: seq<bv8>, strip: seq<Level>, acc: seq<bv8>, k: nat)
    reads b, set j | 0 <= j < |rest| :: rest[j]
  {
    && |rest| == |counts| && k <= |rest| && |mem| == MemSize && a < MemSize
    && (forall j | 0 <= j < |rest| :: counts[j] <= rest[j].Length)
    && b.Valid() && Paused(b.pins) && b.strip == strip
    && b.sram == Device(mem, status, Held(Reading(Advance(status, a, |acc|), 0)))
    && acc == Fetch(mem, status, a, |acc|) && |acc| == |got| + Total(counts[..k])
    && acc == got + Pieces(rest[..k], counts[..k])
  }

  /** One pass of ContinueAll's loop: sram_continue_read into buffer k, which keeps its elements after the piece. */
  method ContinueStep(b: Board, rest: seq<array<bv8>>, counts: seq<int>, ghost mem: seq<bv8>, ghost status: bv8,
                      ghost a: nat, ghost got: seq<bv8>, ghost strip: seq<Level>, ghost acc: seq<bv8>, k: nat)
    returns (ghost acc': seq<bv8>)
    requires Continuing(b, rest, counts, mem, status, a, got, strip, acc, k) && k < |rest|
    requires forall i, j | 0 <= i < j < |rest| :: rest[i] != rest[j]
    modifies b, rest[k]
    ensures Continuing(b, rest, counts, mem, status, a, got, strip, acc', k + 1)
    ensures forall j | 0 <= j < |rest| :: rest[j][Clamp(counts[j])..] == old(rest[j][Clamp(counts[j])..])
  {
    ghost var before := Pieces(rest[..k], counts[..k]);
    ContinueInto(b, rest[k], counts[k], mem, status, a, acc);
    assert Pieces(rest[..k], counts[..k]) == before;
    assert rest[..k + 1][..k] == rest[..k] && counts[..k + 1][..k] == counts[..k];
    acc' := acc + rest[k][..Clamp(counts[k])];
    assert Total(counts[..k + 1]) == Total(counts[..k]) + Clamp(counts[k]);
    assert acc' == got + Pieces(rest[..k + 1], counts[..k + 1]);
    forall j | 0 <= j < |rest| && j != k
      ensures rest[j][Clamp(counts[j])..] == old(rest[j][Clamp(counts[j])..])
    {
      assert rest[j] != rest[k];
    }
  }

  /** One sram_continue_read of a chunked read: the next n bytes of the transfer go into buf. */
  method ContinueInto(b: Board, buf: array<bv8>, n: int, ghost mem: seq<bv8>, ghost status: bv8, ghost a: nat,
                      ghost got: seq<bv8>)
    requires b.Valid() && Paused(b.pins) && n <= buf.Length && |mem| == MemSize && a < MemSize
    requires b.sram == Device(mem, status, Held(Reading(Advance(status, a, |got|), 0)))
    requires got == Fetch(mem, status, a, |got|)
    modifies b, buf
    ensures b.Valid() && Paused(b.pins) && b.strip == old(b.strip)
    ensures b.sram == Device(mem, status, Held(Reading(Advance(status, a, |got| + Clamp(n)), 0)))
    ensures got + buf[..Clamp(n)] == Fetch(mem, status, a, |got| + Clamp(n))
    ensures buf[Clamp(n)..] == old(buf[Clamp(n)..])
  {
    SramContinueRead(b, buf, n);
    FetchSplit(mem, status, a, |got|, Clamp(n));
    AdvanceAdd(status, a, |got|, Clamp(n));
  }
}
