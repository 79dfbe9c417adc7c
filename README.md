# MSP430 LPD8806 matrix with a 23K256 frame buffer, in Dafny

This project models the firmware of an MSP430 that drives an 8 × 32 matrix
built from an LPD8806 RGB LED strip. The frame, three bytes per LED in the
order green, red, blue, is kept in a Microchip 23K256 serial SRAM. The two
devices are driven by bit-banging:

- The 23K256 sits on port 2: HOLD is bit 3, SCK bit 4, SI bit 5, CS bit 1, and SO is read on bit 2.
- The strip sits on port 1: DATA is bit 7 and CLOCK is bit 6.

The model has three layers.

- **Pixel and colour arithmetic** (`pixels.dfy`, module `Pixels`).
  - The serpentine index `calcIndex`.
  - Colour packing: `color` and `colorHex`.
  - The channel unpacking of `setPixelS`.
  - The colour `wheel`.

  `unsigned int` is 16 bits on the MSP430 and is modelled as `bv16`. `unsigned long` is modelled as `bv32` and `unsigned char` as `bv8`, so the C wrap-around is the bit-vector arithmetic's own.
- **The SRAM driver** (`driver.dfy`, module `SramDriver`). Each routine of `23K256.h` is a method over the board (`hardware.dfy`), with each port write one `Board.Write`. The board holds:
  - the output pin levels;
  - the chip (`sram23k256.dfy`): a 32 KiB array, a status register, and an SPI session state machine that samples SI on rising SCK edges, shifts SO on falling ones and pauses while HOLD is low;
  - the bits the strip has clocked in;
  - a ghost trace of every port write.

  Each contract ties the new pins, chip, strip and trace to functions of the old ones. The memory effect of whole transactions is stated by `Store` and `Fetch`, which model the 23K256's byte, page and sequential modes.
- **The frame buffer and the strip** (`strip.dfy`, module `Strip`).
  - `writezeros`, `init` and `display`: the latch and the streaming of the SRAM onto the strip, bit by bit, on rising CLOCK edges.
  - `setPixel` and `setPixelS`.
  - `colorwipe`.

The central results:

- **`display`.** It puts on the strip the most-significant-bit-first bits of the frame that a READ from address 0 returns. In sequential mode, which `sram_init` selects, that frame is SRAM bytes 0..767. The latch zeros follow the frame.
- **`setPixel`.** It writes exactly the bytes `0x80|g, 0x80|r, 0x80|b` at three times the serpentine position, and leaves every other byte unchanged.
- **`colorwipe`.** It leaves every frame byte holding its pixel byte.
- **Transactions.** A WRITE has exactly the memory effect a single transfer has. So does a READ split by HOLD into any number of pieces: `sram_start_read`, then `sram_continue_read` any number of times, then `sram_finish_read`.

## Model

| member | source | states |
|---|---|---|
| Pixels.CalcIndex | main.c:358-363 | calcIndex in 16-bit arithmetic: on the grid the index lies below NUMLEDS and dividing it by COLS gives back the row |
| Pixels.CalcIndexSerpentine | main.c:358-363 | on the grid (row < ROWS, col < COLS) calcIndex is 32·row + col on even rows and 32·row + 31 − col on odd rows, and lies below NUMLEDS |
| Pixels.Serpentine | main.c:30-31 | the reference serpentine position of a grid cell, below NUMLEDS = 256 for rows below 8 |
| Pixels.ColOf | main.c:358-363 | the column recovered from a strip position is below COLS |
| Pixels.SerpentineInverse | main.c:358-363 | row and column are recovered from the serpentine position of any grid cell |
| Pixels.SerpentineOnto | main.c:41 | every strip position below NUMLEDS is the serpentine position of a grid cell: the map is onto the strip |
| Pixels.CalcIndexInverse | main.c:358-363 | computed in 16 bits, calcIndex / 32 gives back the row and the column is recovered by undoing the reversal of odd rows |
| Pixels.CalcIndexInjective | main.c:358-363 | two grid cells get the same index if and only if they are the same cell |
| Pixels.Color | main.c:347-352 | the packed colour always has bits 23, 15 and 7 set and nothing above bit 23 |
| Pixels.Channels | main.c:383-385 | the three unsigned-char channels setPixelS cuts from c, which put back at bytes 2, 1 and 0 give exactly the low 24 bits of c |
| Pixels.ColorHex | main.c:354-356 | the marker bits are forced on and every other bit of the argument is kept as it is |
| Pixels.Mark | main.c:371-373 | `0x80 \| x` has bit 7 set and keeps the low seven bits of x |
| Pixels.PixelBytes | main.c:371-373 | setPixel's three bytes are G, R, B in that order, each with bit 7 set and the channel's low seven bits |
| Pixels.ChannelsColor | main.c:383-385 | unpacking color(r, g, b) as setPixelS does yields 0x80\|r, 0x80\|g, 0x80\|b |
| Pixels.ColorChannels | main.c:354-356 | for a 24-bit value, repacking its unpacked channels with color is colorHex of it |
| Pixels.ColorHexColor | main.c:347-356 | colorHex of a packed colour is that colour: the marker is idempotent |
| Pixels.PixelBytesColor | main.c:378-387 | setPixelS(color(r, g, b)) sends exactly the bytes setPixel(r, g, b) sends |
| Pixels.PixelBytesSame | main.c:371-373 | two colours send the same bytes if and only if their channels agree in the low seven bits |
| Pixels.MarkSame | main.c:371-373 | two channel bytes are equal after OR 0x80 exactly when their low seven bits agree |
| Pixels.MarkTwice | main.c:371-373 | OR-ing 0x80 twice is OR-ing once |
| Pixels.WheelRgb | main.c:391-399 | the channels wheel passes to color, with unsigned-char wrap-around: one channel always 0 and the three always summing to 255 |
| Pixels.Wheel | main.c:390-400 | every wheel colour carries the marker bits and fits in 24 bits |
| Pixels.WheelBands | main.c:390-400 | the three bands: red rises from 3w against green, then blue (3w − 256) against red, then green from 3(w − 170) against blue, the active pair summing to 255 and the third channel 0 |
| Pixels.WheelFixedPoints | main.c:390-400 | wheel(0) = wheel(255) = pure green, wheel(85) = pure red, wheel(170) = pure blue |
| Signals.MsbFirst | 23K256.h:29-40 | the eight wire bits of a byte, element k being bit 7 − k |
| Signals.Frame | main.c:327-339 | the bits of a byte sequence, eight per byte |
| Signals.FrameAt | main.c:327-339 | bit j of a frame is bit j mod 8, from the top, of byte j / 8 |
| Signals.FrameAppend | main.c:327-339 | framing a concatenation is concatenating the framings |
| Signals.Zeros | main.c:302-309 | n zero bits |
| Signals.MaskTables | 23K256.h:116 | shifting 0x80 right k times leaves a one-bit mask, zero exactly after the eighth shift |
| Signals.BelowShift | 23K256.h:116-124 | one more right shift of a one-bit mask covers the bits below it |
| Signals.OverlayStep | 23K256.h:118-122 | setting or clearing the masked bit as the sampled byte has it takes the bitwise read one bit further |
| Signals.OverlayEnds | 23K256.h:116-124 | a read that has not started leaves the buffer byte as it was; after all eight bits it is the byte read |
| Sram23K256.Loc | 23K256.h:47 | the chip uses the address modulo 0x8000 (bit 15 ignored) |
| Sram23K256.NextAddress | 23K256.h:84 | the pointer after a byte stays in the array, and in page mode stays in its 32-byte page, one further with wrap-around |
| Sram23K256.Advance | 23K256.h:94-96 | the pointer after k bytes of a transfer is always inside the 32 KiB array |
| Sram23K256.Store | 23K256.h:94-96 | a WRITE of any bytes leaves a 32 KiB memory |
| Sram23K256.Fetch | 23K256.h:115-125 | a READ of n bytes returns n bytes |
| Sram23K256.Decode | 23K256.h:6-9 | every instruction byte starts a running session (WRSR, WRITE, READ, RDSR, others ignored) |
| Sram23K256.Complete | 23K256.h:50-57 | a completed instruction, address, data or status field leaves the chip consistent and running |
| Sram23K256.Rise | 23K256.h:37 | a rising SCK edge keeps a running session running and does nothing to a paused or deselected chip |
| Sram23K256.Fall | 23K256.h:31 | a falling SCK edge never changes memory or status |
| Sram23K256.Output | 23K256.h:66 | the level the chip drives on SO, High only while it is shifting out a data or status byte |
| Sram23K256.Fresh | 23K256.h:14-18 | CS going low starts a session, paused exactly when HOLD is low |
| Sram23K256.Step | 23K256.h:14-27 | any port write keeps chip and pins coherent, and memory or status change only on a rising SCK edge with CS low and HOLD high |
| Sram23K256.StepQuiet | 23K256.h:32-36 | writes that leave CS, HOLD and SCK alone do nothing to the chip |
| Sram23K256.StepClock | 23K256.h:31-37 | SCK low after high is a falling edge, SCK high after low a rising edge sampling SI |
| Sram23K256.Pulse | 23K256.h:31-37 | one SCK pulse, rise then fall, keeps the chip consistent |
| Sram23K256.SendTo | 23K256.h:29-40 | the pulses of sram_send keep a running session running and do nothing to an idle chip |
| Sram23K256.CompleteSession | 23K256.h:29-48 | completing a field depends only on the chip's memory and status |
| Sram23K256.ReceiveField | 23K256.h:29-40 | sram_send pulses that exactly fill an input field complete it with the value their bits spell |
| Sram23K256.CollectLowSteps | 23K256.h:42-44 | a mask of 0x80 gives eight pulses shifting in bits 7 down to 0 of the data |
| Sram23K256.CollectHighSteps | 23K256.h:46-48 | a mask of 0x8000 gives eight pulses shifting in bits 15 down to 8, then the pulses of mask 0x80 |
| Sram23K256.ShiftInByte | 23K256.h:42-44 | eight bits shifted into a cleared register, most significant first, spell the byte |
| Sram23K256.ShiftInWord | 23K256.h:46-48 | sixteen bits shifted in, most significant first, spell the address |
| Sram23K256.CollectByte | 23K256.h:42-44 | the eight bits of sram_send(0x80, x) shift in as x |
| Sram23K256.CollectWord | 23K256.h:46-48 | the sixteen bits of sram_send(0x8000, a) shift in as a |
| Sram23K256.ReceiveByte | 23K256.h:42-44 | sending a command or data byte completes an empty 8-bit field with that byte |
| Sram23K256.ReceiveAddress | 23K256.h:46-48 | sending an address completes an empty address field with that address |
| Sram23K256.AdvanceSequential | 23K256.h:84 | in sequential mode the pointer after k bytes is (a + k) mod 0x8000 |
| Sram23K256.AdvancePage | 23K256.h:87-99 | in page mode the pointer stays in its page and its offset advances modulo 32 |
| Sram23K256.AdvanceByte | 23K256.h:87-99 | in byte mode the pointer does not move |
| Sram23K256.AdvanceAdd | 23K256.h:130-169 | advancing j then k bytes is advancing j + k bytes |
| Sram23K256.FetchNext | 23K256.h:115-125 | reading one more byte appends the byte at the pointer |
| Sram23K256.FetchSplit | 23K256.h:130-174 | a read of n1 bytes continued by n2 bytes returns what one read of n1 + n2 bytes returns |
| Sram23K256.StoreWritten | 23K256.h:94-96 | after a write to distinct locations each byte written is at its location |
| Sram23K256.StoreUntouched | 23K256.h:94-96 | a write leaves every location it does not reach unchanged |
| Sram23K256.WriteThenRead | 23K256.h:87-128 | reading back a write to distinct locations returns the bytes written |
| Sram23K256.SequentialDistinct | 23K256.h:84 | in sequential mode transfers of up to 0x8000 bytes reach distinct locations |
| Sram23K256.PagePair | 23K256.h:87-99 | in page mode two offsets less than a page apart reach different locations |
| Sram23K256.PageDistinct | 23K256.h:87-99 | in page mode transfers of up to 32 bytes reach distinct locations |
| Sram23K256.FetchSequential | 23K256.h:84 | in sequential mode a read returns the bytes (a + i) mod 0x8000 |
| Sram23K256.FetchFromZero | 23K256.h:84 | in sequential mode a read of n bytes from 0 returns mem[0..n) |
| Sram23K256.StoreThree | main.c:374 | in sequential mode a three-byte write sets exactly three consecutive bytes |
| Hardware.Captured | main.c:337 | the strip takes one bit, DATA, exactly on a rising CLOCK edge |
| Hardware.SiSamples | 23K256.h:31-37 | the SI levels the chip sees at the rising SCK edges of a run of port writes: at most one per write |
| Hardware.SiSamplesAppend | 23K256.h:29-40 | the SI samples of two runs of port writes are the runs' samples one after the other |
| Hardware.Board.Write | 23K256.h:14-27 | one port write: the pins change, the chip steps, the strip captures, the trace grows by the write; HOLD changes only with SCK low |
| Hardware.Board.constructor | 23K256.h:78-83 | a board powered up with any pins and memory |
| Hardware.Board.SramIn | 23K256.h:66 | `P2IN & SRAM_IN`: the SO level, High only while the chip is shifting out a data or status byte |
| SramDriver.SendBits | 23K256.h:29-40 | the SI levels sram_send presents, one per shift of the mask |
| SramDriver.SendBitsByte | 23K256.h:42-44 | with mask 0x80, the SI levels sram_send presents are exactly the byte's wire bits, most significant first (MsbFirst) |
| SramDriver.SendBitsFrom | 23K256.h:30-38 | from the mask of bit k on, sram_send presents bits k to 7 of the byte from the top; proved by induction on k |
| SramDriver.Widen | 23K256.h:32-37 | passing a byte through the 16-bit data and mask of sram_send keeps its bit tests and its mask shifts |
| SramDriver.SendSamples | 23K256.h:29-40 | the chip samples exactly the bits data & mask, most significant first, one per rising SCK edge |
| SramDriver.HeadSample | 23K256.h:31-37 | one pass of sram_send's loop presents one SI level at one rising edge |
| SramDriver.SramSelectChip | 23K256.h:14-18 | SI low, SCK low, CS low, with the chip's reaction |
| SramDriver.SramDeselectChip | 23K256.h:19-21 | CS high ends any session |
| SramDriver.SramHold | 23K256.h:22-24 | HOLD low with SCK low pauses the session in progress |
| SramDriver.SramUnhold | 23K256.h:25-27 | HOLD high with SCK low resumes the paused session |
| SramDriver.SckLow | 23K256.h:31 | P2OUT &= ~SRAM_CLK: a pending high SCK falls |
| SramDriver.SckHigh | 23K256.h:37 | P2OUT \|= SRAM_CLK: the chip samples SI |
| SramDriver.SetSi | 23K256.h:32-36 | SI set, no effect on the chip until SCK rises |
| SramDriver.SendLoopHead | 23K256.h:30-38 | the first pass of sram_send's loop is SCK low, SI set, SCK high |
| SramDriver.SendStep | 23K256.h:31-37 | one pass: one SCK pulse with SI at data & m, the rest of the loop's writes unchanged |
| SramDriver.LastBit | 23K256.h:30 | the last mask bit sent is bit 0 |
| SramDriver.ShiftOut | 23K256.h:30-38 | the loop gives one SCK pulse per mask bit; the chip sees the pulses of SendTo |
| SramDriver.ShiftStep | 23K256.h:30-38 | one pass keeps the loop state, one mask bit further |
| SramDriver.SramSend | 23K256.h:29-40 | sram_send: the chip receives the pulses, SCK ends low, the trace is the loop's writes plus the final SCK low |
| SramDriver.SramSendCommand | 23K256.h:42-44 | eight bits of the command |
| SramDriver.SramSendAddress | 23K256.h:46-48 | sixteen bits of the address |
| SramDriver.LoByte | 23K256.h:54 | a byte through the 16-bit shift register comes back unchanged |
| SramDriver.SramPreamble | 23K256.h:88-91 | select, command, address: the chip is left reading from, or waiting to write at, the address modulo 0x8000 |
| SramDriver.SramSetStatus | 23K256.h:50-57 | one WRSR transaction: status becomes the byte sent, memory untouched, chip deselected |
| SramDriver.ClockInBit | 23K256.h:65-69 | SCK high, sample SO, SCK low |
| SramDriver.SramRdsrPreamble | 23K256.h:61-63 | select and RDSR: the chip starts shifting out its status |
| SramDriver.ClockInStatusBit | 23K256.h:65-69 | the k-th read clock of RDSR sees status bit 7 − k |
| SramDriver.StatusAsRead | 23K256.h:64-70 | the value sram_get_status returns as written: only bit 2 can be set, and it is 0 exactly when the status is 0 |
| SramDriver.GatherIn | 23K256.h:64-70 | the result of the as-written loop from mask m down, as a reference definition; GatherInBelow and GatherStatus state its value |
| SramDriver.GatherOr | 23K256.h:64-70 | the result of the corrected loop from mask m down, as a reference definition; GatherOrBelow and GatherStatus state its value |
| SramDriver.GatherStep | 23K256.h:64-70 | one loop pass: the status bit under the mask decides what is ORed in, and the mask moves one bit down |
| SramDriver.GatherInBelow | 23K256.h:64-70 | the as-written loop ORs in 0x04 exactly when a status bit at or below the mask is one |
| SramDriver.GatherOrBelow | 23K256.h:64-70 | the corrected loop ORs in exactly the status bits at or below the mask |
| SramDriver.GatherStatus | 23K256.h:64-70 | from 0x80 down, the as-written loop gives 0x04 or 0 and the corrected one the status |
| SramDriver.StatusAsReadLoses | 23K256.h:67 | the status read back equals the status only for 0x00 and 0x04; the sequential-mode status 0x40 reads back as 0x04 |
| SramDriver.ClockInStatusAsWritten | 23K256.h:64-70 | eight read clocks, result StatusAsRead(status) |
| SramDriver.ClockInStatus | 23K256.h:64-70 | the corrected loop returns the status register |
| SramDriver.SramGetStatus | 23K256.h:59-75 | sram_get_status as written: one RDSR transaction returning 0x04 for a non-zero status and 0 otherwise, chip unchanged |
| SramDriver.SramGetStatusFixed | 23K256.h:59-75 | the corrected sram_get_status returns the status register |
| SramDriver.SramInit | 23K256.h:77-85 | SCK, SI, HOLD low, then CS and HOLD high, then one WRSR of 0x40: sequential mode, memory untouched, bus idle |
| SramDriver.Clamp | 23K256.h:94 | a `long` loop count runs zero times when negative and n times otherwise |
| SramDriver.BytesNext | 23K256.h:94-96 | one more byte sent appends one sram_send's writes |
| SramDriver.SendDataByte | 23K256.h:95 | one pass of the write loop stores the byte at the pointer and moves the pointer |
| SramDriver.SramWriteBytes | 23K256.h:87-99 | one WRITE transaction: memory becomes Store of the first num_bytes bytes at the address, trace preamble + bytes + CS high |
| SramDriver.SramWriteByte | 23K256.h:101-106 | memory at the address becomes the byte, nothing else changes |
| SramDriver.ClockInDataBit | 23K256.h:117-123 | the k-th clock of a byte reads bit 7 − k of the byte at the pointer |
| SramDriver.ReadBitInto | 23K256.h:117-123 | one inner-loop pass sets or clears one bit of data[i] as the chip has it; every other element unchanged |
| SramDriver.TakeBit | 23K256.h:118-122 | data[i] \|= m on a high sample, data[i] &= ~m on a low one |
| SramDriver.ClockInByte | 23K256.h:116-124 | eight clocks store the byte at the pointer in data[i]; every other element unchanged |
| SramDriver.ClockInBytes | 23K256.h:115-125 | num_bytes bytes read from the pointer fill data's front; the rest of data unchanged |
| SramDriver.ReadByteStep | 23K256.h:115-125 | one byte loop pass reads one more byte |
| SramDriver.Splice | 23K256.h:119-121 | overwriting the next unread element extends the read part |
| SramDriver.SramReadBytes | 23K256.h:108-128 | one READ transaction: data's front is Fetch of num_bytes from the address, chip unchanged |
| SramDriver.SramStartRead | 23K256.h:130-150 | the READ of sram_read_bytes left paused by HOLD with the pointer after the bytes read |
| SramDriver.SramContinueRead | 23K256.h:152-169 | resumes the paused READ without command or address, reads on from the pointer, pauses again |
| SramDriver.SramFinishRead | 23K256.h:171-174 | HOLD high, CS high: the transaction ends |
| SramDriver.SramReadByte | 23K256.h:176-182 | returns the byte at the address modulo 0x8000 |
| SramDriver.WriteThenReadByte | 23K256.h:101-106 | sram_read_byte after sram_write_byte to the same address returns the byte written |
| SramDriver.WriteThenReadBytes | 23K256.h:87-128 | in sequential mode reading back a write of the same count at the same address returns the bytes written |
| SramDriver.SplitRead | 23K256.h:130-174 | start_read, one continue_read, finish_read deliver d1 ++ d2, which one READ of the total length returns; chip deselected; both buffers keep their elements after the bytes read |
| SramDriver.Total | 23K256.h:156 | the bytes a run of continue_read calls asks for: the sum of the `long` counts, each clamped at zero; none for no calls |
| SramDriver.ContinueInto | 23K256.h:152-169 | one sram_continue_read after bytes `got` of a transfer: the buffer's front gets the next bytes, so that got followed by them is what one READ returns; the buffer's tail and the chip's memory are unchanged |
| SramDriver.ContinueStep | 23K256.h:152-169 | one call of a chunked read keeps the bytes read so far equal to a single READ of their length, and leaves every buffer's tail unchanged |
| SramDriver.ContinueAll | 23K256.h:152-169 | any number of sram_continue_read calls, buffer j getting the next Clamp(counts[j]) bytes: the bytes read in all are one READ of their total length, the chip stays paused at the pointer after them, every buffer's tail is unchanged |
| SramDriver.ChunkedRead | 23K256.h:130-174 | sram_start_read, then sram_continue_read into any number of buffers, then sram_finish_read: the pieces one after the other are what one READ of the total length from the address modulo 0x8000 returns; memory and status unchanged, chip deselected, each buffer's tail unchanged |
| Strip.LatchLength | main.c:316 | 3 · ((NUMLEDS + 63) / 64) bytes is 96 bits |
| Strip.SetData | main.c:332-334 | DATA set, chip and strip unaffected |
| Strip.ClockLow | main.c:330 | CLOCK low, nothing captured |
| Strip.ClockHigh | main.c:337 | CLOCK high: the strip takes DATA exactly when CLOCK was low |
| Strip.Latched | main.c:305-308 | k pulses give k zero bits when CLOCK starts low (or k is 0), and k − 1 when CLOCK starts high and k > 0 |
| Strip.ZerosNext | main.c:305-308 | one more zero bit |
| Strip.ZeroPulse | main.c:306-307 | one pass of writezeros's loop |
| Strip.WriteZeros | main.c:302-309 | DATA low, then 8·n pulses (n·8 in 16 bits): the strip takes Latched(clock, 8·n) zeros and CLOCK ends low |
| Strip.Init | main.c:312-318 | DATA and CLOCK low, 96 zero bits, then sram_init: sequential mode, memory untouched |
| Strip.StreamBit | main.c:329-337 | one bit pass: the strip takes bit k of the byte at the SRAM pointer |
| Strip.StreamByte | main.c:328-338 | the byte at the pointer goes onto the strip most significant bit first |
| Strip.StreamStep | main.c:327-339 | one byte pass keeps the streaming state, one byte further |
| Strip.StreamNext | main.c:327-339 | one byte more streamed appends its bits and its writes |
| Strip.StreamFrame | main.c:327-339 | the 768 bytes from the pointer go onto the strip in order |
| Strip.FrameOf | main.c:326 | the frame display streams is 768 bytes |
| Strip.FrameOfSequential | main.c:324-326 | in sequential mode that frame is SRAM bytes 0..767 |
| Strip.Display | main.c:321-344 | display as written: strip gets the frame's bits then only 95 zero bits; SRAM unchanged and deselected |
| Strip.DisplayFixed | main.c:321-344 | corrected display: frame bits then 96 zero bits, in sequential mode the bits of SRAM bytes 0..767 |
| Strip.OnGrid | main.c:369 | the bounds test of setPixel and setPixelS (also main.c line 382): a cell that passes has its index on the strip |
| Strip.PixelAddress | main.c:370-374 | `n*3` for n = calcIndex: on the grid three times the index, with the pixel's three bytes inside the 768-byte frame |
| Strip.Paint | main.c:374 | a pixel write leaves the chip consistent, status and session unchanged |
| Strip.PixelAddressLoc | main.c:370-374 | on the grid the pixel's address is three times its serpentine position, below NUMLEDS |
| Strip.PaintSequential | main.c:370-374 | in sequential mode a pixel write sets exactly three bytes from 3·index and nothing else |
| Strip.SetPixel | main.c:366-375 | off the grid no port write at all; on it one WRITE of 0x80\|g, 0x80\|r, 0x80\|b at calcIndex·3 |
| Strip.SetPixelS | main.c:378-387 | off the grid nothing; on it setPixel with the channels unpacked from c |
| Strip.WipeDevice | main.c:248-250 | the chip after colorwipe's first pixel writes keeps status and session |
| Strip.WipeTurn | main.c:248-249 | finishing a column is starting the next one |
| Strip.WipeStep | main.c:250 | one inner pass is one setPixelS |
| Strip.ColorWipe | main.c:245-253 | setPixelS on every cell column by column, then display; in sequential mode every frame byte holds its pixel byte, bytes above 767 unchanged, the strip gets the wiped frame and 96 zeros |
| Strip.PrevValues | main.c:248-249 | the cell visited before (col, row) is one row back, or the last row of the previous column |
| Strip.WipeSequential | main.c:248-250 | in sequential mode, after the cells before (col, row), exactly the bytes of those cells hold pixel bytes |
| Strip.WipeUnfold | main.c:248-250 | past the first cell the wipe is the wipe one cell back plus that cell's write |
| Strip.PaintNext | main.c:250 | painting the next cell extends the set of wiped cells by that cell |
| Strip.WipeNext | main.c:250 | the same, on memory contents |
| Strip.WipeCell | main.c:358-363 | a byte is in the painted pixel or its cell's place in the wipe order is unchanged |
| Strip.WipeAll | main.c:245-250 | in sequential mode after the whole grid every frame byte j holds pixel byte j mod 3 and bytes above 767 are unchanged |

## Left out

- `delayMillis`, the watchdog interrupt and its counter: a busy-wait on an interrupt-driven volatile, so concurrency and time. `colorwipe`'s commented-out delay and the delay after `display` are left out with them.
- `adcGenRand24`: hardware entropy from the ADC.
- The port direction registers (`P1DIR`, `P2DIR`), clock and watchdog setup in `main`. Only output levels are modelled; SO is an input whose level is the chip's output.
- The other pattern routines (`copcar`, `goJoe`, `randomdance`, `solidblink`, `rainbowcycle`, `showrainbow`, `demos`, `randomchase`) and the text routines. They only call `setPixelS` and `display` with random values and delays. `font.h` is not part of this model.
- Edge timing and electrical behaviour. The model keeps the order of edges, not their durations. SO is read as Low whenever the chip does not drive it.
- The globals `sram_bit` and `sram_byte` are modelled as loop locals with the same loop order. Each loop body is a separate step method, such as `SramDriver.ReadByteStep` and `Strip.WipeStep`.
- The 23K256's HOLD-disable bit is not modelled. Nor is the distinction between byte mode and the reserved mode: in both, the pointer stays where it is.
- Sram23K256.NextAddress: written from the 23K256's described operating modes, since the driver does not say how the chip moves its pointer.
- Each loop's state is a ghost predicate, so the step methods' contracts are read rather than counted.
- SramDriver.ChunkedRead: the C routines take a pointer, so a caller may hand them overlapping parts of one buffer; the model takes whole arrays, pairwise distinct, one per call.
- Strip.ColorWipe: calls the corrected `Strip.DisplayFixed` (see Findings), not the as-written `Strip.Display`.

## Findings

| source | as written | input that shows it | evidently intended | confidence | as-written member | corrected member |
|---|---|---|---|---|---|---|
| 23K256.h:67 | `data \|= SRAM_IN` ORs the constant 0x04 into the result for every one bit read, so `sram_get_status` returns 0x04 or 0 | status 0x40 (sequential mode, as `sram_init` sets it) reads back as 0x04 | `data \|= sram_bit`, returning the status register | not executed | SramDriver.SramGetStatus, SramDriver.StatusAsReadLoses | SramDriver.SramGetStatusFixed |
| main.c:337-342 | the streaming loop ends with CLOCK high, so the first pulse of `writezeros` has no rising edge and the latch is 95 zero bits | any frame: the strip receives 6144 frame bits and then 95 zeros | 96 zero bits, 3 · ((NUMLEDS + 63) / 64) bytes, as `init` sends | not executed | Strip.Display | Strip.DisplayFixed |
