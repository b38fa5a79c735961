# ST7305 / ST7302 monochrome LCD drivers, modelled in Dafny

Two MicroPython drivers for SPI-attached monochrome LCD controllers:

- `TFT29` is a 2.9 inch, 384 x 168 panel on an ST7305.
- `TFT213` is a 2.13 inch, 250 x 120 panel on an ST7302. The glass is 250 x 122; the driver does not use the bottom two lines.

Each driver has the same parts:

- a MONO_VLSB frame buffer `bs` for drawing;
- a second buffer `bt` in the controller's native format;
- a transport routine `_send` that frames one command and its optional payload on the DC, CS and SPI lines;
- a start-up routine `_init`, which resets the panel and replays a table of commands and delays;
- a converter `_convert` that packs `bs` into `bt`;
- `refresh`, which converts, then sends the cached address window and the packed frame.

The model is split into five modules:

- `Bits` (bits.dfy) is the nibble-interleave expression (`Mix`) that both converters apply to every pair of source bytes. It holds the bit-by-bit map and an inverse (`Unmix`) that shows no bit is lost or used twice.
- `Packing` (packing.dfy) is the layout of both buffers as pure functions of the width and the number of 8-row bands:
  - where the converter's counter `k` sits for column pair p, band r and half h (`Position`);
  - proofs that positions are in bounds, distinct and cover the whole buffer;
  - the converted buffer as a function (`Packed`) with its inverse (`Unpack`);
  - where each pixel lands, bit for bit (`PixelLands`).
- `Wire` (wire.dfy) is the hardware as a trace of events: DC, CS and RES levels, SPI writes and sleeps.
  - `Bus` is a class whose methods `Send`, `Reset`, `Step`, `Play` and `Init` append to the trace exactly as `_send` and `_init` act on the pins.
  - The command tables are data (`Entry`).
  - `Replay` is the trace a table produces. `Decode` reads a trace back as a table, and the two are proved to be inverses.
- `St7305` (st7305.dfy) holds the ST7305 start-up table, parameterised by the frame-rate pair, and the four frame-rate constants. Its class `TFT29` has the two buffers as arrays, a `Convert` method with the driver's nested loops over `bt`, and `Refresh`.
- `St7302` (st7302.dfy) holds the same for the ST7302, plus the extra transaction at the end of start-up that clears the two unused lines.

## Model

| member | source | states |
|---|---|---|
| Bits.Mix | st7305viper.py:98-106 | the mix expression; its odd bits 7, 5, 3, 1 give back the low nibble of the left byte and its even bits that of the right byte, and the word it builds fits in one byte |
| Bits.MixBits | st7305viper.py:98-107 | the eight OR-terms of the mix put bit n (n = 0..3) of the left byte at bit 7-2n and bit n of the right byte at bit 6-2n |
| Bits.MixLowBits | st7305viper.py:96-108 | in the first output byte of a band, bits 0-3 of each column land at the interleaved positions |
| Bits.MixHighBits | st7305viper.py:110-122 | the second output byte, built from both bytes shifted right by 4, places bits 4-7 with the same map |
| Bits.Interleave | st7305viper.py:96-122 | all eight pixels of both columns, low half in the first byte and high half in the second, each at bit 7-2(n mod 4) or 6-2(n mod 4) |
| Bits.UnmixMix | st7305viper.py:98-122 | the two output bytes carry all sixteen source bits: the source pair can be recovered from them |
| Bits.MixUnmix | st7305viper.py:98-122 | every pair of output bytes is the mix of exactly one source pair, so each source bit is used once |
| Packing.TileStartIs | st7305viper.py:91-108 | after p column pairs the counter k, which advances 2 per band, has reached p * 2B |
| Packing.PositionDecompose | st7305viper.py:91-122 | distinct (pair, band, half) triples are written at distinct indices of `bt`: no index is written twice |
| Packing.DecomposePosition | st7305viper.py:91-122 | every index of `bt` is the position of some (pair, band, half) triple: no index is skipped |
| Packing.PositionInRange | st7305viper.py:91-122 | every write `t[k]` of the converter is inside a buffer of W*B bytes |
| Packing.SourceInRange | st7305viper.py:92-97 | every read `(j+y)*W + i + 1` of the converter is inside the bitmap |
| Packing.LastPosition | st7305viper.py:91-122 | when the outer loop ends, the counter equals W*B, the length of `bt` |
| Packing.Packed | st7305viper.py:87-122 | the converted buffer has exactly as many bytes as the bitmap |
| Packing.PackedCell | st7305viper.py:96-122 | the byte at the position of pair p, band r, half h is the low or high mix of bytes r*W + 2p and r*W + 2p + 1 |
| Packing.BandBytes | st7305viper.py:96-122 | for left column i and band r, the two consecutive output bytes are the mix of the two source bytes and the mix of them shifted right by 4 |
| Packing.PackedFromCells | st7305viper.py:91-122 | a buffer that holds every cell at its position is the whole converted buffer |
| Packing.UnpackPacked | st7305viper.py:87-122 | the conversion loses nothing: unpacking the converted buffer gives the bitmap back |
| Packing.PackedInjective | st7305viper.py:87-122 | two bitmaps convert to the same frame exactly when they are equal |
| Packing.PixelLands | st7305viper.py:87-122 | pixel (x, y) of the bitmap is bit 7 - 2(y mod 4) - (x mod 2) of the output byte for pair x/2, band y/8, half (y mod 8)/4 |
| Wire.SendEvents | st7305viper.py:28-40 | the events of one `_send`: the opcode in its own chip-select window in command mode, the switch to data mode, then the payload in a second window only when it is non-empty (its framing is stated by SendFraming and read back by Decode) |
| Wire.SendFraming | st7305viper.py:27-40 | an empty payload gives five events with no data phase; a non-empty one adds exactly one; the only writes are the opcode and the payload |
| Wire.SendWithData | st7305viper.py:27-40 | a command phase followed by a data phase on the bus is exactly one send with that payload |
| Wire.SendWithoutData | st7305viper.py:27-40 | a command phase alone on the bus is exactly one send with no payload |
| Wire.Replay | st7305viper.py:81-85 | replaying a table produces no events exactly when the table is empty, and the first event is a sleep or the command-mode switch |
| Wire.ReplayAppend | st7305viper.py:81-85 | replaying one more entry appends exactly that entry's events |
| Wire.ReplayConcat | st7305viper.py:81-85 | replaying two tables one after the other is replaying their concatenation |
| Wire.EntryThenReplay | st7305viper.py:81-85 | reading back one entry's events followed by a replay gives that entry followed by the rest |
| Wire.DecodeReplay | st7305viper.py:81-85 | a logic analyser reading the bus after a replay recovers the table, in order, delays included |
| Wire.ReplayDecode | st7305viper.py:81-85 | a trace that reads back as a table is exactly that table's replay |
| Wire.ReplayInjective | st7305viper.py:81-85 | two tables put the same events on the bus exactly when they are equal |
| Wire.ReplayRefresh | st7305viper.py:124-128 | the refresh commands put column-address-set, row-address-set and memory-write on the bus, in that order |
| Wire.RefreshDiffersOnlyInFrame | st7305viper.py:124-128 | with the cached window, every refresh begins with the same events up to the memory-write opcode, and two refreshes differ exactly when their frames do |
| Wire.NewBuffer | st7305viper.py:16-19 | `bytearray(n)` is a fresh buffer of n zero bytes |
| Wire.Bus.constructor | st7305viper.py:11-14 | the driver starts with no events on its lines |
| Wire.Bus.Send | st7305viper.py:27-40 | one `_send`: DC low, CS low, opcode, CS high, DC high, then CS low, payload, CS high only for a non-empty payload |
| Wire.Bus.Reset | st7305viper.py:44-47 | the reset pulse: sleep 50 ms, RES low, sleep 100 ms, RES high |
| Wire.Bus.Step | st7305viper.py:82-85 | one pass of the replay loop: a command entry is sent, a delay entry is slept on |
| Wire.Bus.Play | st7305viper.py:81-85 | the loop appends the table's replay, entry by entry in order |
| Wire.Bus.Init | st7305viper.py:42-85 | `_init` appends the reset pulse followed by the table's replay |
| St7305.Commands | st7305viper.py:50-79 | the start-up table for a frame-rate pair, in the driver's order, each opcode and payload byte as listed; its layout is stated by CommandsLayout, CommandsPauses and FramerateOnlyAt |
| St7305.CommandAt | st7305viper.py:51-78 | entry n of that table: a command with its payload, the frame-rate byte at 0xB2 and the mode opcode before display-on, or a 100 ms delay |
| St7305.CommandsLayout | st7305viper.py:50-79 | the table has 27 entries; 0xB2 carries the frame-rate byte, the mode opcode sits just before display-on, and the table's 0x2A/0x2B entries are the cached window |
| St7305.CommandsPauses | st7305viper.py:65-78 | the table pauses exactly twice, after sleep-out and at the end, 100 ms each |
| St7305.FramerateOnlyAt | st7305viper.py:58-76 | two frame-rate settings give tables that agree except at the 0xB2 payload and the mode opcode, and equal tables only for equal settings |
| St7305.FrameratesDiffer | st7305viper.py:3-6 | the four frame-rate constants give four different start-up tables, each ending in mode 0x38 or 0x39 |
| St7305.DelaysFollowWake | st7305viper.py:65-78 | every pause comes right after sleep-out or display-on |
| St7305.Geometry | st7305viper.py:15-23 | the width is even and the band count a multiple of 3; `bs` and `bt` are both 8064 = 192 * 7 * 3 * 2 bytes; the window is columns 0x17..0x24 and rows 0x00..0xBF |
| St7305.CounterAt | st7305viper.py:91-122 | the counter writes half h of band r of column pair p at index 42p + 2r + h |
| St7305.TFT29.constructor | st7305viper.py:10-25 | both buffers are fresh and zero, and the bus has seen the reset pulse and the table for the chosen frame rate |
| St7305.TFT29.Convert | st7305viper.py:87-122 | after the nested loops, `bt` is the converted bitmap; `bs` is untouched |
| St7305.TFT29.ConvertColumns | st7305viper.py:92-122 | one pass of the outer loop writes the 42 bytes of column pair i/2 and leaves every byte before and after them alone |
| St7305.TFT29.ConvertBand | st7305viper.py:95-122 | one pass of the inner loop writes the low and high mix of band r at k and k+1 and nothing else |
| St7305.TFT29.Refresh | st7305viper.py:124-128 | `bt` is the converted bitmap and the bus gains 0x2A with the cached columns, 0x2B with the cached rows, then 0x2C with `bt` |
| St7302.Commands | st7302viper.py:45-67 | the start-up table, in the driver's order, without the commented-out entries, each opcode and payload byte as listed; its layout is stated by CommandsLayout, CommandsPauses and CommandsOmitted |
| St7302.CommandAt | st7302viper.py:46-66 | entry n of that table: a command with its payload, or a 100 ms delay |
| St7302.ClearCommands | st7302viper.py:77-79 | the clear transaction: column-address-set with the column past the window, row-address-set with all rows, memory-write with 375 bytes of the zeroed buffer; stated by ClearWindow |
| St7302.CommandsLayout | st7302viper.py:45-67 | the table has 17 entries, with sleep-out, frame rate control [0x01, 0x05], low-power mode and display-on at their places |
| St7302.CommandsPauses | st7302viper.py:55-66 | the table pauses exactly twice, after sleep-out and at the end, 100 ms each |
| St7302.CommandsOmitted | st7302viper.py:48-61 | the commented-out commands 0xD1, 0xC7 and 0xB9 are never sent, gate EQ 0xB4 is sent exactly once, at entry 6, with the full second setting, and the table sets no window |
| St7302.ClearWindow | st7302viper.py:75-79 | the clear targets the one column just past the refresh window over the same rows, with 375 zero bytes |
| St7302.Geometry | st7302viper.py:10-18 | the width is even and the band count a multiple of 3; `bs` and `bt` are both 3750 = 125 * 5 * 3 * 2 bytes; the window is columns 0x19..0x22 and rows 0x00..0x7C; the clear column is 0x23 |
| St7302.CounterAt | st7302viper.py:85-116 | the counter writes half h of band r of column pair p at index 30p + 2r + h |
| St7302.TFT213.constructor | st7302viper.py:5-20 | both buffers are fresh and zero, and the bus has seen the reset pulse, the table and the clear of the bottom lines |
| St7302.TFT213.Init | st7302viper.py:37-79 | `_init` appends the reset pulse, the table's replay and the clear transaction, and leaves `bs` zero |
| St7302.TFT213.ClearBottom | st7302viper.py:75-79 | `fill(0)` zeroes `bs`, then the bus gains 0x2A [0x23, 0x23], 0x2B [0x00, 0x7C] and 0x2C with the first 375 bytes of `bs` |
| St7302.TFT213.Convert | st7302viper.py:81-116 | after the nested loops, `bt` is the converted bitmap; `bs` is untouched |
| St7302.TFT213.ConvertColumns | st7302viper.py:86-116 | one pass of the outer loop writes the 30 bytes of column pair i/2 and leaves every byte before and after them alone |
| St7302.TFT213.ConvertBand | st7302viper.py:89-116 | one pass of the inner loop writes the low and high mix of band r at k and k+1 and nothing else |
| St7302.TFT213.Refresh | st7302viper.py:118-122 | `bt` is the converted bitmap and the bus gains 0x2A with the cached columns, 0x2B with the cached rows, then 0x2C with `bt` |

## Left out

- The drawing surface `framebuf.FrameBuffer`, which both classes inherit, is an external library. Only its buffer `bs` is modelled. Of its operations, only `fill(0)` is modelled, as zeroing `bs`.
- SPI, GPIO and `time.sleep_ms` are external. Each call the driver makes on them is one event of the bus trace. The trace records no timing, and a sleep is only its duration.
- The SPI handle and the CS, DC and RES pins are not constructor parameters. A fresh `Bus` stands in for them.
- `te_pin` of `TFT29` is neither stored nor used by the driver, so it is not modelled.
- `_send` accepts a payload of `None`, a list, a `bytearray` or a `memoryview`, converting as needed. Every payload is modelled as a byte sequence. A payload of `None` or an empty list is the empty sequence; both give no data phase, as the driver's truthiness test does.
- The one-byte `cmd` buffer that `_send` reuses is modelled as a write of `[op]`.
- The `@micropython.viper` decorator and `ptr8` only change how the converter runs, not what it computes, so they are not modelled. The mix is computed on 32-bit words and stored into a byte; `Bits.Mix` shows that the value always fits in one byte.
- St7305.TFT29.constructor: takes its frame-rate setting as a pair of bytes, so it does not model a `framerate` tuple whose entries do not fit in a byte, for which `_send` would fail or wrap the value when it stores it into `cmd` or builds the payload `bytearray`.
- The default frame rate of `TFT29` is the constructor parameter's default, `Framerate8`.
- Construction never fails. The geometry is hard-coded and there is no rejection path in either driver, so the model has none. `St7305.Geometry` and `St7302.Geometry` show instead that the fixed sizes fit the converter.
- The driver's comment on `FRAMERATE_32` names 0x05, but the constant is `(0x38, 0x15)`. The model follows the constant.
- A failed SPI write is not modelled. The driver does not check for one.
- Both drivers state their `_convert` loops with literal bounds. The imperative model keeps those bounds. `Packing` proves the layout facts for any even width and any band count that is a multiple of 3.
