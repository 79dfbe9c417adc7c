/**
 * The Microchip 23K256 serial SRAM as the driver sees it: 32 KiB of bytes,
 * a status register whose MODE bits choose how the address pointer moves,
 * and an SPI session that shifts bits in on the rising edge of SCK and out
 * on the falling edge while CS is low and HOLD is high.
 */
module Sram23K256 {
  import opened Signals

  const MemSize: nat := 0x8000

  /** Instruction codes. */
  const WRSR: bv8 := 0x01
  const WRITE: bv8 := 0x02
  const READ: bv8 := 0x03
  const RDSR: bv8 := 0x05

  /** Values of the status register's MODE bits (bits 7 and 6). */
  const ByteMode: bv8 := 0x00
  const SequentialMode: bv8 := 0x40
  const PageMode: bv8 := 0x80

  const PageSize: nat := 32

  /** What the bits being shifted in on SI will be. */
  datatype Field =
    | Instruction
    | Address(forRead: bool)
    | DataByte(addr: nat)
    | StatusByte

  /**
   * The chip's view of the bus. Awaiting the instruction, awaiting the
   * address and streaming a write are all Receive states (an input field
   * being shifted in); a READ streams Reading states, an RDSR StatusReading
   * states; HOLD low pauses a session without ending it.
   */
  datatype Session =
    | Deselected
    | Receive(field: Field, acc: bv16, count: nat)
    | ReadPending(addr: nat)
    | Reading(addr: nat, bit: nat)
    | StatusPending
    | StatusReading(bit: nat)
    | Ignoring
    | Held(paused: Session)

  datatype Device = Device(mem: seq<bv8>, status: bv8, session: Session)

  function Width(f: Field): nat
  {
    if f.Address? then 16 else 8
  }

  /** A session in progress and not paused. */
  predicate Running(s: Session)
  {
    match s
    case Deselected => false
    case Held(_) => false
    case Receive(f, _, n) => (f.DataByte? ==> f.addr < MemSize) && n < Width(f)
    case ReadPending(a) => a < MemSize
    case Reading(a, k) => a < MemSize && k < 8
    case StatusReading(k) => k < 8
    case StatusPending => true
    case Ignoring => true
  }

  predicate SessionOk(s: Session)
  {
    s.Deselected? || Running(s) || (s.Held? && Running(s.paused))
  }

  predicate Ok(d: Device)
  {
    |d.mem| == MemSize && SessionOk(d.session)
  }

  /** The chip ignores the most significant address bit. */
  function Loc(a: bv16): (r: nat)
    ensures r < MemSize
    ensures r == (a as int) % MemSize
  {
    (a & 0x7FFF) as int
  }

  function Mode(status: bv8): bv8
  {
    status & 0xC0
  }

  predicate Sequential(status: bv8)
  {
    Mode(status) == SequentialMode
  }

  /**
   * Where the address pointer moves after a byte: the next byte, wrapping
   * at the end of the array, in sequential mode; the next byte within the
   * same 32-byte page in page mode; nowhere in byte mode (and in the
   * reserved mode).
   */
  function NextAddress(status: bv8, a: nat): (r: nat)
    requires a < MemSize
    ensures r < MemSize
    ensures Mode(status) == PageMode ==> r / PageSize == a / PageSize && r % PageSize == (a + 1) % PageSize
  {
    if Mode(status) == SequentialMode then (a + 1) % MemSize
    else if Mode(status) == PageMode then a - a % PageSize + (a % PageSize + 1) % PageSize
    else a
  }

  /** The session an instruction byte starts. */
  function Decode(c: bv16): (s: Session)
    ensures Running(s)
  {
    if c == WRITE as bv16 then Receive(Address(false), 0, 0)
    else if c == READ as bv16 then Receive(Address(true), 0, 0)
    else if c == WRSR as bv16 then Receive(StatusByte, 0, 0)
    else if c == RDSR as bv16 then StatusPending
    else Ignoring
  }

  /** The effect of a completely received input field with value v. */
  function Complete(d: Device, f: Field, v: bv16): (r: Device)
    requires |d.mem| == MemSize
    requires f.DataByte? ==> f.addr < MemSize
    ensures Ok(r) && Running(r.session)
  {
    match f
    case Instruction => d.(session := Decode(v))
    case Address(forRead) =>
      if forRead then d.(session := ReadPending(Loc(v)))
      else d.(session := Receive(DataByte(Loc(v)), 0, 0))
    case DataByte(a) =>
      d.(mem := d.mem[a := Lo(v)], session := Receive(DataByte(NextAddress(d.status, a)), 0, 0))
    case StatusByte => d.(status := Lo(v), session := Ignoring)
  }

  /** A rising SCK edge with SI at level si: input bits are sampled. */
  function Rise(d: Device, si: Level): (r: Device)
    requires Ok(d)
    ensures Ok(r)
    ensures Running(d.session) ==> Running(r.session)
    ensures !Running(d.session) ==> r == d
  {
    match d.session
    case Receive(f, acc, n) =>
      var v := Shift(acc, si);
      if n + 1 == Width(f) then Complete(d, f, v) else d.(session := Receive(f, v, n + 1))
    case _ => d
  }

  /** A falling SCK edge: output bits are shifted out. */
  function Fall(d: Device): (r: Device)
    requires Ok(d)
    ensures Ok(r)
    ensures r.mem == d.mem && r.status == d.status
    ensures Running(d.session) ==> Running(r.session)
    ensures !Running(d.session) ==> r == d
  {
    match d.session
    case ReadPending(a) => d.(session := Reading(a, 0))
    case Reading(a, k) =>
      d.(session := if k < 7 then Reading(a, k + 1) else Reading(NextAddress(d.status, a), 0))
    case StatusPending => d.(session := StatusReading(0))
    case StatusReading(k) => d.(session := StatusReading((k + 1) % 8))
    case _ => d
  }

  /** The level the chip drives on SO (Low stands for a line not driven). */
  function Output(d: Device): (l: Level)
    requires Ok(d)
    ensures l == High ==> d.session.Reading? || d.session.StatusReading?
  {
    match d.session
    case Reading(a, k) => BitAt(d.mem[a], k)
    case StatusReading(k) => BitAt(d.status, k)
    case _ => Low
  }

  /** The session CS going low starts: waiting for an instruction, paused if HOLD is low. */
  function Fresh(hold: Level): (s: Session)
    ensures SessionOk(s) && s != Deselected
    ensures s.Held? <==> hold == Low
  {
    if hold == Low then Held(Receive(Instruction, 0, 0)) else Receive(Instruction, 0, 0)
  }

  /** Pins and session agree: deselected exactly when CS is high, held exactly when HOLD is low. */
  predicate Coherent(p: Pins, s: Session)
  {
    if p.sramCs == High then s == Deselected
    else s != Deselected && (s.Held? <==> p.sramHold == Low)
  }

  /** The chip's reaction to its pins changing from `before` to `after`. */
  function Step(d: Device, before: Pins, after: Pins): (r: Device)
    requires Ok(d) && Coherent(before, d.session)
    ensures Ok(r) && Coherent(after, r.session)
    ensures r.mem != d.mem || r.status != d.status ==>
              before.sramClk == Low && after.sramClk == High && after.sramCs == Low && after.sramHold == High
  {
    if after.sramCs == High then d.(session := Deselected)
    else if before.sramCs == High then d.(session := Fresh(after.sramHold))
    else if before.sramHold != after.sramHold then
      if after.sramHold == Low then d.(session := Held(d.session)) else d.(session := d.session.paused)
    else if after.sramHold == Low then d
    else if before.sramClk == Low && after.sramClk == High then Rise(d, after.sramOut)
    else if before.sramClk == High && after.sramClk == Low then Fall(d)
    else d
  }

  /** Writes that leave CS, HOLD and SCK alone do nothing to the chip. */
  lemma StepQuiet(d: Device, before: Pins, after: Pins)
    requires Ok(d) && Coherent(before, d.session)
    requires after.sramCs == before.sramCs && after.sramHold == before.sramHold
    requires after.sramClk == before.sramClk
    ensures Step(d, before, after) == d
  {
  }

  /** SCK edges: a rising edge samples SI, a falling edge shifts SO; neither acts on a paused or deselected chip. */
  lemma StepClock(d: Device, p: Pins)
    requires Ok(d) && Coherent(p, d.session)
    ensures Step(d, p, p.(sramClk := Low)) == if p.sramClk == High then Fall(d) else d
    ensures p.sramClk == Low ==> Step(d, p, p.(sramClk := High)) == Rise(d, p.sramOut)
  {
  }

  /** One SCK pulse, low to high to low, with SI at level si. */
  function Pulse(d: Device, si: Level): (r: Device)
    requires Ok(d)
    ensures Ok(r)
  {
    Fall(Rise(d, si))
  }

  /** The chip after the pulses of sram_send: one per mask bit, bit `data & mask` on SI. */
  function SendTo(d: Device, mask: bv16, data: bv16): (r: Device)
    requires Ok(d)
    ensures Ok(r)
    ensures Running(d.session) ==> Running(r.session)
    ensures !Running(d.session) ==> r == d
    decreases mask
  {
    if mask == 0 then d else SendTo(Pulse(d, LevelOf(data & mask != 0)), mask >> 1, data)
  }

  /** The input shift register after one more bit. */
  function Shift(acc: bv16, si: Level): bv16
  {
    (acc << 1) | (if si == High then 1 else 0)
  }

  /** How many pulses sram_send gives for a mask: one per shift until the mask is zero. */
  function Count(mask: bv16): nat
    decreases mask
  {
    if mask == 0 then 0 else 1 + Count(mask >> 1)
  }

  /** The shift register after the bits sram_send puts on SI for mask and data. */
  function Collect(acc: bv16, mask: bv16, data: bv16): bv16
    decreases mask
  {
    if mask == 0 then acc else Collect(Shift(acc, LevelOf(data & mask != 0)), mask >> 1, data)
  }

  /** Completing a field does not depend on the session it ends. */
  lemma CompleteSession(d: Device, e: Device, f: Field, v: bv16)
    requires |d.mem| == MemSize && (f.DataByte? ==> f.addr < MemSize)
    requires e.mem == d.mem && e.status == d.status
    ensures Complete(e, f, v) == Complete(d, f, v)
  {
  }

  /**
   * The pulses of sram_send that exactly fill an input field complete it,
   * with the value the bits spell.
   */
  lemma {:induction false} ReceiveField(d: Device, mask: bv16, data: bv16)
    requires Ok(d) && d.session.Receive? && mask != 0
    requires d.session.count + Count(mask) == Width(d.session.field)
    ensures SendTo(d, mask, data) ==
              Fall(Complete(d, d.session.field, Collect(d.session.acc, mask, data)))
    decreases mask
  {
    var s := d.session;
    var si := LevelOf(data & mask != 0);
    var e := Pulse(d, si);
    if mask >> 1 == 0 {
      assert e == Fall(Complete(d, s.field, Shift(s.acc, si)));
      assert SendTo(e, 0, data) == e;
    } else {
      assert e == d.(session := Receive(s.field, Shift(s.acc, si), s.count + 1));
      ReceiveField(e, mask >> 1, data);
      CompleteSession(d, e, s.field, Collect(Shift(s.acc, si), mask >> 1, data));
    }
  }

  /** Collect over the low eight mask bits, step by step, from any accumulator. */
  lemma CollectLowSteps(acc: bv16, v: bv16)
    ensures Count(0x80) == 8
    ensures Collect(acc, 0x80, v) == Shift(Shift(Shift(Shift(Shift(Shift(Shift(Shift(acc, LevelOf(v & 0x80 != 0)), LevelOf(v & 0x40 != 0)), LevelOf(v & 0x20 != 0)), LevelOf(v & 0x10 != 0)), LevelOf(v & 8 != 0)), LevelOf(v & 4 != 0)), LevelOf(v & 2 != 0)), LevelOf(v & 1 != 0))
  {
    assert Count(0) == 0;
    assert Count(1) == 1;
    assert Count(2) == 2;
    assert Count(4) == 3;
    assert Count(8) == 4;
    assert Count(0x10) == 5;
    assert Count(0x20) == 6;
    assert Count(0x40) == 7;
    assert Count(0x80) == 8;
    var a1 := Shift(acc, LevelOf(v & 0x80 != 0));
    var a2 := Shift(a1, LevelOf(v & 0x40 != 0));
    var a3 := Shift(a2, LevelOf(v & 0x20 != 0));
    var a4 := Shift(a3, LevelOf(v & 0x10 != 0));
    var a5 := Shift(a4, LevelOf(v & 8 != 0));
    var a6 := Shift(a5, LevelOf(v & 4 != 0));
    var a7 := Shift(a6, LevelOf(v & 2 != 0));
    var a8 := Shift(a7, LevelOf(v & 1 != 0));
    assert Collect(a8, 0, v) == a8;
    assert Collect(a7, 1, v) == Collect(a8, 0, v);
    assert Collect(a6, 2, v) == Collect(a7, 1, v);
    assert Collect(a5, 4, v) == Collect(a6, 2, v);
    assert Collect(a4, 8, v) == Collect(a5, 4, v);
    assert Collect(a3, 0x10, v) == Collect(a4, 8, v);
    assert Collect(a2, 0x20, v) == Collect(a3, 0x10, v);
    assert Collect(a1, 0x40, v) == Collect(a2, 0x20, v);
    assert Collect(acc, 0x80, v) == Collect(a1, 0x40, v);
  }

  /** Collect over the high eight bits of a 16-bit mask, step by step, ending at the low byte's mask. */
  lemma CollectHighSteps(acc: bv16, v: bv16)
    ensures Count(0x8000) == 8 + Count(0x80)
    ensures Collect(acc, 0x8000, v) == Collect(Shift(Shift(Shift(Shift(Shift(Shift(Shift(Shift(acc, LevelOf(v & 0x8000 != 0)), LevelOf(v & 0x4000 != 0)), LevelOf(v & 0x2000 != 0)), LevelOf(v & 0x1000 != 0)), LevelOf(v & 0x800 != 0)), LevelOf(v & 0x400 != 0)), LevelOf(v & 0x200 != 0)), LevelOf(v & 0x100 != 0)), 0x80, v)
  {
    assert Count(0x100) == 1 + Count(0x80);
    assert Count(0x200) == 2 + Count(0x80);
    assert Count(0x400) == 3 + Count(0x80);
    assert Count(0x800) == 4 + Count(0x80);
    assert Count(0x1000) == 5 + Count(0x80);
    assert Count(0x2000) == 6 + Count(0x80);
    assert Count(0x4000) == 7 + Count(0x80);
    assert Count(0x8000) == 8 + Count(0x80);
    var a1 := Shift(acc, LevelOf(v & 0x8000 != 0));
    var a2 := Shift(a1, LevelOf(v & 0x4000 != 0));
    var a3 := Shift(a2, LevelOf(v & 0x2000 != 0));
    var a4 := Shift(a3, LevelOf(v & 0x1000 != 0));
    var a5 := Shift(a4, LevelOf(v & 0x800 != 0));
    var a6 := Shift(a5, LevelOf(v & 0x400 != 0));
    var a7 := Shift(a6, LevelOf(v & 0x200 != 0));
    var a8 := Shift(a7, LevelOf(v & 0x100 != 0));
    assert Collect(a7, 0x100, v) == Collect(a8, 0x80, v);
    assert Collect(a6, 0x200, v) == Collect(a7, 0x100, v);
    assert Collect(a5, 0x400, v) == Collect(a6, 0x200, v);
    assert Collect(a4, 0x800, v) == Collect(a5, 0x400, v);
    assert Collect(a3, 0x1000, v) == Collect(a4, 0x800, v);
    assert Collect(a2, 0x2000, v) == Collect(a3, 0x1000, v);
    assert Collect(a1, 0x4000, v) == Collect(a2, 0x2000, v);
    assert Collect(acc, 0x8000, v) == Collect(a1, 0x4000, v);
  }

  /** Shifting in the eight bits of a byte, most significant first, rebuilds it. */
  lemma ShiftInByte(v: bv16)
    requires v < 0x100
    ensures Shift(Shift(Shift(Shift(Shift(Shift(Shift(Shift(0, LevelOf(v & 0x80 != 0)), LevelOf(v & 0x40 != 0)), LevelOf(v & 0x20 != 0)), LevelOf(v & 0x10 != 0)), LevelOf(v & 8 != 0)), LevelOf(v & 4 != 0)), LevelOf(v & 2 != 0)), LevelOf(v & 1 != 0)) == v
  {
  }

  lemma CollectByte(v: bv16)
    requires v < 0x100
    ensures Count(0x80) == 8
    ensures Collect(0, 0x80, v) == v
  {
    CollectLowSteps(0, v);
    ShiftInByte(v);
  }

  /** Shifting in the sixteen bits of a word, most significant first, rebuilds it. */
  lemma ShiftInWord(v: bv16)
    ensures Shift(Shift(Shift(Shift(Shift(Shift(Shift(Shift(Shift(Shift(Shift(Shift(Shift(Shift(Shift(Shift(0, LevelOf(v & 0x8000 != 0)), LevelOf(v & 0x4000 != 0)), LevelOf(v & 0x2000 != 0)), LevelOf(v & 0x1000 != 0)), LevelOf(v & 0x800 != 0)), LevelOf(v & 0x400 != 0)), LevelOf(v & 0x200 != 0)), LevelOf(v & 0x100 != 0)), LevelOf(v & 0x80 != 0)), LevelOf(v & 0x40 != 0)), LevelOf(v & 0x20 != 0)), LevelOf(v & 0x10 != 0)), LevelOf(v & 8 != 0)), LevelOf(v & 4 != 0)), LevelOf(v & 2 != 0)), LevelOf(v & 1 != 0)) == v
  {
  }

  lemma CollectWord(v: bv16)
    ensures Count(0x8000) == 16
    ensures Collect(0, 0x8000, v) == v
  {
    CollectHighSteps(0, v);
    CollectLowSteps(Shift(Shift(Shift(Shift(Shift(Shift(Shift(Shift(0, LevelOf(v & 0x8000 != 0)), LevelOf(v & 0x4000 != 0)), LevelOf(v & 0x2000 != 0)), LevelOf(v & 0x1000 != 0)), LevelOf(v & 0x800 != 0)), LevelOf(v & 0x400 != 0)), LevelOf(v & 0x200 != 0)), LevelOf(v & 0x100 != 0)), v);
    ShiftInWord(v);
  }

  /** sram_send(0x80, x) shifts a whole byte into an empty 8-bit field. */
  lemma ReceiveByte(d: Device, x: bv8)
    requires Ok(d) && d.session.Receive? && d.session.acc == 0 && d.session.count == 0
    requires Width(d.session.field) == 8
    ensures SendTo(d, 0x80, x as bv16) == Fall(Complete(d, d.session.field, x as bv16))
  {
    CollectByte(x as bv16);
    ReceiveField(d, 0x80, x as bv16);
  }

  /** sram_send(0x8000, a) shifts a whole address into an empty address field. */
  lemma ReceiveAddress(d: Device, a: bv16)
    requires Ok(d) && d.session.Receive? && d.session.acc == 0 && d.session.count == 0
    requires d.session.field.Address?
    ensures SendTo(d, 0x8000, a) == Fall(Complete(d, d.session.field, a))
  {
    CollectWord(a);
    ReceiveField(d, 0x8000, a);
  }
  // ---------------------------------------------------------------------------
  // Memory semantics of whole transactions

  /** The address pointer after k bytes of a transfer that started at a. */
  function Advance(status: bv8, a: nat, k: nat): (r: nat)
    requires a < MemSize
    ensures r < MemSize
  {
    if k == 0 then a else NextAddress(status, Advance(status, a, k - 1))
  }

  /** The memory after a WRITE of `bytes` starting at a. */
  function Store(mem: seq<bv8>, status: bv8, a: nat, bytes: seq<bv8>): (r: seq<bv8>)
    requires |mem| == MemSize && a < MemSize
    ensures |r| == MemSize
    decreases |bytes|
  {
    if bytes == [] then mem
    else Store(mem, status, a, bytes[..|bytes| - 1])[Advance(status, a, |bytes| - 1) := bytes[|bytes| - 1]]
  }

  /** The n bytes a READ starting at a returns. */
  function Fetch(mem: seq<bv8>, status: bv8, a: nat, n: nat): (r: seq<bv8>)
    requires |mem| == MemSize && a < MemSize
    ensures |r| == n
  {
    seq(n, i requires 0 <= i < n => mem[Advance(status, a, i)])
  }

  /** The first n bytes of a transfer from a go to n different locations. */
  predicate Distinct(status: bv8, a: nat, n: nat)
    requires a < MemSize
  {
    forall i, j | 0 <= i < j < n :: Advance(status, a, i) != Advance(status, a, j)
  }

  /** Counting one further modulo the array size. */
  lemma ModSuccMem(x: nat)
    ensures (x % MemSize + 1) % MemSize == (x + 1) % MemSize
  {
  }

  /** Counting one further modulo the page size. */
  lemma ModSuccPage(x: nat)
    ensures (x % PageSize + 1) % PageSize == (x + 1) % PageSize
  {
  }

  /** In sequential mode the pointer moves through the array and wraps at its end. */
  lemma {:induction false} AdvanceSequential(status: bv8, a: nat, k: nat)
    requires a < MemSize && Sequential(status)
    ensures Advance(status, a, k) == (a + k) % MemSize
  {
    if k > 0 {
      AdvanceSequential(status, a, k - 1);
      ModSuccMem(a + k - 1);
    }
  }

  /** In page mode the pointer stays in its 32-byte page and wraps at the page's end. */
  lemma {:induction false} AdvancePage(status: bv8, a: nat, k: nat)
    requires a < MemSize && Mode(status) == PageMode
    ensures Advance(status, a, k) / PageSize == a / PageSize
    ensures Advance(status, a, k) % PageSize == (a % PageSize + k) % PageSize
  {
    if k > 0 {
      var p := Advance(status, a, k - 1);
      AdvancePage(status, a, k - 1);
      var q := a % PageSize + k - 1;
      assert Advance(status, a, k) == NextAddress(status, p);
      ModSuccPage(p);
      ModSuccPage(q);
      assert (p + 1) % PageSize == (q % PageSize + 1) % PageSize;
    }
  }

  /** In byte mode (and the reserved mode) the pointer does not move. */
  lemma {:induction false} AdvanceByte(status: bv8, a: nat, k: nat)
    requires a < MemSize && Mode(status) != SequentialMode && Mode(status) != PageMode
    ensures Advance(status, a, k) == a
  {
    if k > 0 {
      AdvanceByte(status, a, k - 1);
    }
  }

  /** Advancing j bytes and then k bytes is advancing j + k bytes. */
  lemma {:induction false} AdvanceAdd(status: bv8, a: nat, j: nat, k: nat)
    requires a < MemSize
    ensures Advance(status, Advance(status, a, j), k) == Advance(status, a, j + k)
  {
    if k > 0 {
      AdvanceAdd(status, a, j, k - 1);
    }
  }

  /** A read of one more byte returns one more location. */
  lemma FetchNext(mem: seq<bv8>, status: bv8, a: nat, n: nat)
    requires |mem| == MemSize && a < MemSize
    ensures Fetch(mem, status, a, n + 1) == Fetch(mem, status, a, n) + [mem[Advance(status, a, n)]]
  {
  }

  /** A read of n1 bytes continued by a read of n2 bytes returns what one read of n1 + n2 bytes does. */
  lemma FetchSplit(mem: seq<bv8>, status: bv8, a: nat, n1: nat, n2: nat)
    requires |mem| == MemSize && a < MemSize
    ensures Fetch(mem, status, a, n1) + Fetch(mem, status, Advance(status, a, n1), n2) ==
            Fetch(mem, status, a, n1 + n2)
  {
    var s := Fetch(mem, status, a, n1) + Fetch(mem, status, Advance(status, a, n1), n2);
    forall i | n1 <= i < n1 + n2
      ensures s[i] == Fetch(mem, status, a, n1 + n2)[i]
    {
      AdvanceAdd(status, a, n1, i - n1);
    }
  }

  /** After a write, each byte written is at its location. */
  lemma {:induction false} StoreWritten(mem: seq<bv8>, status: bv8, a: nat, bytes: seq<bv8>, i: nat)
    requires |mem| == MemSize && a < MemSize
    requires Distinct(status, a, |bytes|) && i < |bytes|
    ensures Store(mem, status, a, bytes)[Advance(status, a, i)] == bytes[i]
    decreases |bytes|
  {
    var n := |bytes| - 1;
    var front := bytes[..n];
    assert Store(mem, status, a, bytes) == Store(mem, status, a, front)[Advance(status, a, n) := bytes[n]];
    if i < n {
      assert Advance(status, a, i) != Advance(status, a, n);
      assert |front| == n && front[i] == bytes[i];
      assert Distinct(status, a, n);
      StoreWritten(mem, status, a, front, i);
    }
  }

  /** A write leaves every location it does not reach as it was. */
  lemma {:induction false} StoreUntouched(mem: seq<bv8>, status: bv8, a: nat, bytes: seq<bv8>, j: nat)
    requires |mem| == MemSize && a < MemSize && j < MemSize
    requires forall i | 0 <= i < |bytes| :: Advance(status, a, i) != j
    ensures Store(mem, status, a, bytes)[j] == mem[j]
    decreases |bytes|
  {
    if bytes != [] {
      StoreUntouched(mem, status, a, bytes[..|bytes| - 1], j);
    }
  }

  /** Reading back what was just written returns it, when the write reached distinct locations. */
  lemma WriteThenRead(mem: seq<bv8>, status: bv8, a: nat, bytes: seq<bv8>)
    requires |mem| == MemSize && a < MemSize && Distinct(status, a, |bytes|)
    ensures Fetch(Store(mem, status, a, bytes), status, a, |bytes|) == bytes
  {
    forall i | 0 <= i < |bytes|
      ensures Fetch(Store(mem, status, a, bytes), status, a, |bytes|)[i] == bytes[i]
    {
      StoreWritten(mem, status, a, bytes, i);
    }
  }

  /** Two offsets less than the array size apart land on different locations. */
  lemma MemApart(r: nat, i: nat, j: nat)
    requires r < MemSize && i < j < MemSize
    ensures (r + i) % MemSize != (r + j) % MemSize
  {
    if r + j < MemSize {
      assert (r + i) % MemSize == r + i && (r + j) % MemSize == r + j;
    } else if r + i >= MemSize {
      assert (r + i) % MemSize == r + i - MemSize && (r + j) % MemSize == r + j - MemSize;
    } else {
      assert (r + i) % MemSize == r + i && (r + j) % MemSize == r + j - MemSize;
    }
  }

  /** Two offsets less than a page apart land on different offsets within the page. */
  lemma PageOffsetApart(r: nat, i: nat, j: nat)
    requires r < PageSize && i < j < PageSize
    ensures (r + i) % PageSize != (r + j) % PageSize
  {
    if r + j < PageSize {
      assert (r + i) % PageSize == r + i && (r + j) % PageSize == r + j;
    } else if r + i >= PageSize {
      assert (r + i) % PageSize == r + i - PageSize && (r + j) % PageSize == r + j - PageSize;
    } else {
      assert (r + i) % PageSize == r + i && (r + j) % PageSize == r + j - PageSize;
    }
  }

  /** In sequential mode any transfer of at most the array's size reaches distinct locations. */
  lemma SequentialDistinct(status: bv8, a: nat, n: nat)
    requires a < MemSize && Sequential(status) && n <= MemSize
    ensures Distinct(status, a, n)
  {
    forall i, j | 0 <= i < j < n
      ensures Advance(status, a, i) != Advance(status, a, j)
    {
      AdvanceSequential(status, a, i);
      AdvanceSequential(status, a, j);
      MemApart(a, i, j);
    }
  }

  /** Locations in the same page with different offsets in it differ. */
  lemma PageApart(x: nat, y: nat)
    requires x / PageSize == y / PageSize && x % PageSize != y % PageSize
    ensures x != y
  {
  }

  /** In page mode the pointer after i and after j bytes differ when i and j are less than a page apart. */
  lemma PagePair(status: bv8, a: nat, i: nat, j: nat)
    requires a < MemSize && Mode(status) == PageMode && i < j < PageSize
    ensures Advance(status, a, i) != Advance(status, a, j)
  {
    var x, y := Advance(status, a, i), Advance(status, a, j);
    AdvancePage(status, a, i);
    AdvancePage(status, a, j);
    PageOffsetApart(a % PageSize, i, j);
    PageApart(x, y);
  }

  /** In page mode any transfer of at most a page reaches distinct locations. */
  lemma PageDistinct(status: bv8, a: nat, n: nat)
    requires a < MemSize && Mode(status) == PageMode && n <= PageSize
    ensures Distinct(status, a, n)
  {
    forall i, j | 0 <= i < j < n
      ensures Advance(status, a, i) != Advance(status, a, j)
    {
      PagePair(status, a, i, j);
    }
  }

  /** In sequential mode a read returns consecutive locations, wrapping at the end of the array. */
  lemma FetchSequential(mem: seq<bv8>, status: bv8, a: nat, n: nat)
    requires |mem| == MemSize && a < MemSize && Sequential(status)
    ensures forall i | 0 <= i < n :: Fetch(mem, status, a, n)[i] == mem[(a + i) % MemSize]
  {
    forall i | 0 <= i < n
      ensures Fetch(mem, status, a, n)[i] == mem[(a + i) % MemSize]
    {
      AdvanceSequential(status, a, i);
    }
  }

  /** In sequential mode a read from address 0 returns the front of the array. */
  lemma FetchFromZero(mem: seq<bv8>, status: bv8, n: nat)
    requires |mem| == MemSize && Sequential(status) && n <= MemSize
    ensures Fetch(mem, status, 0, n) == mem[..n]
  {
    FetchSequential(mem, status, 0, n);
    forall i | 0 <= i < n
      ensures Fetch(mem, status, 0, n)[i] == mem[i]
    {
      assert (0 + i) % MemSize == i;
    }
  }

  /** In sequential mode a three-byte write within the array sets three consecutive locations. */
  lemma StoreThree(mem: seq<bv8>, status: bv8, a: nat, x: bv8, y: bv8, z: bv8)
    requires |mem| == MemSize && a + 2 < MemSize && Sequential(status)
    ensures Store(mem, status, a, [x, y, z]) == mem[a := x][a + 1 := y][a + 2 := z]
  {
    assert Advance(status, a, 1) == a + 1;
    assert Advance(status, a, 2) == a + 2;
    assert [x, y, z][..2] == [x, y];
    assert [x, y][..1] == [x];
    assert [x][..0] == [];
    assert Store(mem, status, a, [x]) == mem[a := x];
    assert Store(mem, status, a, [x, y]) == mem[a := x][a + 1 := y];
  }
}
