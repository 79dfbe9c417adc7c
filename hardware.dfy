/**
 * The board the firmware runs on: the output pins of ports 1 and 2, the
 * 23K256 wired to port 2, and the LPD8806 strip wired to port 1. Every
 * write to an output port is one call of Board.Write, which is where the
 * two peripherals react to their lines.
 */
module Hardware {
  import opened Signals
  import opened Sram23K256

  /** What the strip clocks in when the pins change: DATA, on a rising CLOCK edge. */
  function Captured(before: Pins, after: Pins): (s: seq<Level>)
    ensures |s| <= 1
    ensures |s| == 1 <==> before.clock == Low && after.clock == High
  {
    if before.clock == Low && after.clock == High then [after.data] else []
  }

  /** The 23K256 lets HOLD change only while SCK is low. */
  predicate HoldSafe(before: Pins, after: Pins)
  {
    before.sramHold != after.sramHold ==> before.sramClk == Low && after.sramClk == Low
  }

  /** The SI levels a run of port writes, starting from pins p, presents at rising SCK edges. */
  function SiSamples(p: Pins, writes: seq<Pins>): (s: seq<Level>)
    ensures |s| <= |writes|
    decreases |writes|
  {
    if writes == [] then []
    else (if p.sramClk == Low && writes[0].sramClk == High then [writes[0].sramOut] else [])
         + SiSamples(writes[0], writes[1..])
  }

  /** Samples of consecutive runs of writes are the runs' samples one after the other. */
  lemma {:induction false} SiSamplesAppend(p: Pins, a: seq<Pins>, b: seq<Pins>)
    ensures SiSamples(p, a + b) == SiSamples(p, a) + SiSamples(if a == [] then p else a[|a| - 1], b)
    decreases |a|
  {
    if a == [] {
      assert a + b == b;
    } else {
      assert (a + b)[1..] == a[1..] + b;
      SiSamplesAppend(a[0], a[1..], b);
    }
  }

  class Board {
    /** The current levels of the output pins. */
    var pins: Pins
    /** The serial SRAM. */
    var sram: Device
    /** Every bit the LED strip has clocked in, oldest first. */
    var strip: seq<Level>
    /** Every output-port write, oldest first. */
    ghost var trace: seq<Pins>

    ghost predicate Valid()
      reads this
    {
      Ok(sram) && Coherent(pins, sram.session)
    }

    /** A board powered up with arbitrary pin levels and SRAM contents. */
    constructor (p: Pins, mem: seq<bv8>, status: bv8)
      requires |mem| == MemSize
      ensures Valid()
      ensures pins == p && sram.mem == mem && sram.status == status
      ensures strip == [] && trace == []
    {
      pins := p;
      sram := Device(mem, status, if p.sramCs == High then Deselected else Fresh(p.sramHold));
      strip := [];
      trace := [];
    }

    /** P2IN & SRAM_IN: the level the SRAM drives on its SO line. */
    function SramIn(): (l: Level)
      reads this
      requires Valid()
      ensures l == High ==> sram.session.Reading? || sram.session.StatusReading?
    {
      Output(sram)
    }

    /** One write to an output port: the SRAM and the strip see their lines change. */
    method Write(p: Pins)
      requires Valid() && HoldSafe(pins, p)
      modifies this
      ensures Valid()
      ensures pins == p
      ensures sram == Step(old(sram), old(pins), p)
      ensures strip == old(strip) + Captured(old(pins), p)
      ensures trace == old(trace) + [p]
    {
      sram := Step(sram, pins, p);
      strip := strip + Captured(pins, p);
      pins := p;
      trace := trace + [p];
    }
  }
}
