# inky: a Dafny model of the AC073TC1A e-ink driver

The program paints an image onto a Pimoroni Inky Impression 7.3" panel. This
is a seven-colour e-ink display driven by an AC073TC1A controller and
attached to a Raspberry Pi's GPIO header. This project models the core of
the driver and proves properties of that model. The core is:

- **Frames.** `shrink` packs paletted pixels two per byte. `demobuf` draws
  a diagonal-stripe test frame straight into packed bytes
  (module `Frame`, `frame.dfy`).
- **Placement.** Where an image of a given aspect ratio is placed on the
  800×480 canvas before scaling (module `Canvas`, `canvas.dfy`).
- **Command protocol.** `write` frames one command: the opcode byte, then
  the payload in 4096-byte transfers, bracketed by the data/command
  select line (module `Protocol`).
  - `setup` is the reset pulse followed by the 19-entry initialisation
    table (`PanelReset`, `PanelSetup`).
  - `paint` is the four-step paint table with its settle delays
    (`PanelPaint`).
  - Every failing step is fatal. This is the `must`/`log.Fatal` of the
    source, modelled as returning the error at once (module `Run`).
- **Kernel interface.**
  - The GPIO character-device v2 requests: `openGPIO` and `setGPIO`
    (`GpioUapi`, `Gpio`).
  - The spidev requests: `openSPI` and `writeSPI` (`SpiUapi`, `Spi`).
  - The `_IOC` request encoding and the C structure layouts that give the
    hand-written ioctl numbers (`Uapi`).
- **File filter.** `hasAnySuffix`, which picks image files out of a
  directory listing (module `Suffix`).

The operating system is a `Kernel.Host` object with two parts:

- `trace`: every call the program makes, in order. The calls are open,
  close, ioctl with the record it carries, and sleep.
- `reply`: an oracle that gives the kernel's answer (errno and descriptor)
  to the call at each trace position.

Each effectful operation has a specification function, which computes an
`Outcome`: the calls it makes and the error it returns. A method that
follows the source statement by statement is proved to append exactly
those calls and return exactly that error. The lemmas then state what the
specification means:

- the complete trace when the kernel accepts everything;
- where the trace ends when a call fails;
- that the select line brackets every payload;
- that the payload chunks join up to the data.

Go's `byte` shifts wrap modulo 256, which `bv8` does as well. Go's integer
`/` truncates toward zero, which `Canvas.GoQuo` reproduces. `int(float64)`
of a positive value is the floor of a `real`.

## Model

Lemmas that only rearrange sequences or index arithmetic for the proofs
(for example `PanelReset.AppendEach`, `Frame.DemoIndex`) are helpers and
have no row.

| member | source | states |
|---|---|---|
| `Uapi.Ioc` | gpio.go:24-25 | an `_IOC` request number built from in-range fields fits in 32 bits |
| `Uapi.IocRoundTrip` | gpio.go:24-25 | decoding an `_IOC` number recovers its direction, type, number and size |
| `GpioUapi.FlagBits` | gpio.go:18-22 | the five line flags are distinct single bits 2, 3, 8, 9, 10; output with pull-down is 0x208 |
| `GpioUapi.LineAttributeSize` | gpio.go:28-32 | `gpio_v2_line_attribute` is 16 bytes, 8-aligned, without implicit padding |
| `GpioUapi.LineConfigAttributeSize` | gpio.go:34-37 | `gpio_v2_line_config_attribute` is 24 bytes, 8-aligned, without implicit padding |
| `GpioUapi.LineConfigSize` | gpio.go:39-44 | `gpio_v2_line_config` is 272 bytes, 8-aligned, without implicit padding |
| `GpioUapi.FlatConfigSize` | gpio.go:39-44 | the configuration's field layouts give a 272-byte, 8-aligned struct with no padding |
| `GpioUapi.LineRequestFieldsFlat` | gpio.go:46-54 | the request's fields have sizes 256, 32, 272, 4, 4, 20, 4 with their alignments |
| `GpioUapi.LineRequestSize` | gpio.go:46-54 | `gpio_v2_line_request` is 592 bytes, 8-aligned, without implicit padding |
| `GpioUapi.FlatRequestSize` | gpio.go:46-54 | those field layouts give a 592-byte, 8-aligned struct with no padding |
| `GpioUapi.LineValuesSize` | gpio.go:56-59 | `gpio_v2_line_values` is 16 bytes, 8-aligned, without implicit padding |
| `GpioUapi.GetLineIoctlEncoding` | gpio.go:24 | 0xc250b407 is `_IOWR(0xB4, 0x07, sizeof(struct gpio_v2_line_request))` |
| `GpioUapi.LineSetValuesIoctlEncoding` | gpio.go:25 | 0xc010b40f is `_IOWR(0xB4, 0x0F, sizeof(struct gpio_v2_line_values))` |
| `GpioUapi.CString` | gpio.go:70 | the consumer label is the prefix of the name buffer before its first NUL, with no NUL inside |
| `GpioUapi.NewLineRequest` | gpio.go:68-75 | the request has one line, offsets `[line, 0, …]`, consumer "inky" then NULs, the given flags, no attributes, every other field zero |
| `GpioUapi.NewLineValuesMask` | gpio.go:90-93 | setGPIO sends mask 1 and bits `val & 1`: only bit 0 of `val` and only the first line matter |
| `SpiUapi.ModeBits` | spi.go:14-20 | CPHA and CPOL are disjoint bits and mode k is the number k, phase in bit 0, polarity in bit 1 |
| `SpiUapi.WrModeIoctlEncoding` | spi.go:22 | 0x40016b01 is `_IOW(0x6B, 1, __u8)` |
| `SpiUapi.WrMaxSpeedHzIoctlEncoding` | spi.go:23 | 0x40046b04 is `_IOW(0x6B, 4, __u32)` |
| `SpiUapi.TransferSize` | spi.go:26-37 | `spi_ioc_transfer` is 32 bytes, 8-aligned, without implicit padding |
| `SpiUapi.FlatTransferSize` | spi.go:26-37 | the descriptor's field layouts give a 32-byte, 8-aligned struct with no padding |
| `SpiUapi.TransferIoctlEncoding` | spi.go:60 | `0x40006B00 + n * 0x200000` is `SPI_IOC_MESSAGE(n)` for every n that fits, and for n = 1 it is `_IOW(0x6B, 0, 32)` |
| `SpiUapi.NewTransferFields` | spi.go:58-65 | the descriptor sends exactly `buf`, receives as many bytes, has `len` equal to `len(buf)` cut to 32 bits, all else zero |
| `Kernel.Host.Open` | gpio.go:62 | opening a device appends one open call and returns the kernel's descriptor and errno for it |
| `Kernel.Host.Close` | gpio.go:66 | closing appends one close call of that descriptor |
| `Kernel.Host.Ioctl` | gpio.go:77-79 | an ioctl appends one call with its request number and record and returns the kernel's reply to it |
| `Kernel.Host.Sleep` | ac073tc1.go:196 | a sleep appends one sleep call of that many milliseconds |
| `Gpio.SetCallLowBit` | gpio.go:87-93 | the setGPIO call for `val` is the one for `val & 1` and carries bits 0 or 1 with mask 1 |
| `Gpio.OpenGPIO` | gpio.go:61-85 | a failed chip open returns (0, error) with no ioctl; otherwise one line request then the chip's close on every path; a refused request returns (0, error), an accepted one the kernel's line descriptor |
| `Gpio.SetGPIO` | gpio.go:87-98 | one set-values ioctl for `val`; the error is returned exactly when the kernel reports an errno |
| `Spi.OpenSPI` | spi.go:39-55 | open, set mode, then set speed; a refused mode closes the device without trying the speed, a refused speed closes it too, and only full success returns a handle |
| `Spi.WriteSPI` | spi.go:57-70 | one transfer of exactly `buf`; returns (`len(buf)`, nil) on success and (0, error) on failure; an empty buffer is not allowed |
| `Canvas.FitSizes` | ac073tc1.go:124-127 | the scaled width and height are the integer quotients `480 * dx / dy` and `800 * dy / dx` |
| `Canvas.FitInIntegers` | ac073tc1.go:124-128 | the placement compares `dx > dy` and is full-width-centred-down or full-height-centred-across with integer quotient sizes |
| `Canvas.FitTall` | ac073tc1.go:124-125 | an image no wider than high gets full height and width `480 * dx / dy`, inside the canvas, centred with the odd pixel on the right |
| `Canvas.FitNoColumns` | ac073tc1.go:123-125 | an image with no columns has ratio 0, takes the tall branch and gets the empty full-height column (400, 0)-(400, 480) |
| `Canvas.FitWide` | ac073tc1.go:126-127 | an image wider than high gets full width and height `800 * dy / dx`, centred down; a height over 480 reaches past the bottom edge, and past the top as well once it is 482 or more, the odd pixel going below |
| `Canvas.FitSpills` | ac073tc1.go:126 | the region leaves the canvas exactly when `dy < dx` and `481 * dx <= 800 * dy` |
| `Canvas.FitSpillsExample` | ac073tc1.go:124-128 | a 6×5 image is placed at (0, -93)-(800, 573); an 800×481 image at (0, 0)-(800, 481) |
| `Canvas.FitIntendedInside` | ac073tc1.go:124-128 | comparing with the canvas's own 800/480 keeps the region inside the canvas, spanning one direction and centred in the other |
| `Run.ThenStep` | ac073tc1.go:191-200 | two phases over trace snapshots compose: the second runs only when the first succeeded |
| `Run.RunSnoc` | ac073tc1.go:227-233 | running one more step after a successful run appends that step's calls and error |
| `Run.RunStops` | ac073tc1.go:229-232 | once a step has failed, no later step makes a call |
| `Run.RunAppend` | ac073tc1.go:227-233 | running two lists is running the first and, only if it succeeded, the second |
| `Run.RunFailure` | ac073tc1.go:229-232 | a failed run is a successful run of the steps before some step i, then step i, which failed and made the last calls |
| `Run.ThenFailure` | ac073tc1.go:191-233 | a successful phase followed by a failed run ends with the run's failing step |
| `Run.Advance` | ac073tc1.go:227-233 | the run of i + 1 steps extends the run of i steps by step i, and a failing step i ends the whole run |
| `Run.RunStep` | ac073tc1.go:227-233 | one loop pass: the trace after step i is the run of i + 1 steps, or the whole run if step i failed |
| `Protocol.ChunksJoin` | ac073tc1.go:268-276 | the pieces write sends, joined up, are the payload |
| `Protocol.ChunksSizes` | ac073tc1.go:269-271 | every piece is non-empty and at most 4096 bytes, all but the last exactly 4096 |
| `Protocol.ChunksCount` | ac073tc1.go:269-276 | a payload of m bytes goes in the ceiling of m / 4096 transfers |
| `Protocol.ChunksSingle` | ac073tc1.go:270 | a payload of at most 4096 bytes goes in one transfer |
| `Protocol.FirstFailure` | ac073tc1.go:272-274 | the first failing transfer's position is within range and that transfer is failed by the kernel |
| `Protocol.FirstFailureIsFirst` | ac073tc1.go:272-274 | every transfer before the first failure succeeded |
| `Protocol.FirstFailureUnique` | ac073tc1.go:272-274 | the first failure is the only position with those two properties |
| `Protocol.TransferCalls` | ac073tc1.go:271 | one transfer call per piece |
| `Protocol.SendByChunks` | ac073tc1.go:269-276 | the payload loop sends exactly the chunks, in order, stopping at the first failed one with its error |
| `Protocol.SendStep` | ac073tc1.go:270-275 | one pass of the payload loop sends the front piece and either ends with its error or continues with the rest |
| `Protocol.SendChunks` | ac073tc1.go:268-276 | the payload loop appends exactly the calls and returns exactly the error of its specification |
| `Protocol.WritePayload` | ac073tc1.go:265-277 | select line to 1, the payload loop, then select line to 0 on every path, its errors ignored |
| `Protocol.Write` | ac073tc1.go:260-279 | write appends exactly the calls and returns exactly the error of its specification |
| `Protocol.WriteSucceeds` | ac073tc1.go:260-279 | when the kernel accepts everything, write makes the opcode transfer, and for non-nil data the line raise, the chunk transfers and the line lowering, and returns nil |
| `Protocol.WriteOpcodeFailure` | ac073tc1.go:261-264 | a failed opcode transfer is the only call and its error is returned |
| `Protocol.WriteFramesPayload` | ac073tc1.go:265-277 | after the opcode, the line goes to 1, only chunk transfers up to the first failure follow, the line goes to 0 last, and an error is returned exactly when a chunk failed |
| `Protocol.WriteEmptyPayload` | ac073tc1.go:265-269 | empty non-nil data still raises and lowers the line with no transfer between |
| `Protocol.SendLocal` | ac073tc1.go:269-276 | the payload loop depends only on the kernel's answers to its own transfers |
| `Protocol.WriteIgnoresSelectLine` | ac073tc1.go:266-267 | the kernel's answers to the select-line calls never change what write does |
| `Protocol.WriteSendsData` | ac073tc1.go:268-276 | the calls between the line raise and lowering are transfers whose bytes, joined, are the data |
| `PanelReset.ResetPaths` | ac073tc1.go:192-200 | the reset pulse stops at the first failed line write, with exactly the calls before it and that write |
| `PanelReset.Reset` | ac073tc1.go:192-200 | the straight-line reset appends exactly the calls and returns exactly the error of its specification |
| `PanelReset.SignalEvents` | ac073tc1.go:192-200 | one call per reset step |
| `PanelReset.SignalsSucceed` | ac073tc1.go:192-200 | when the line writes are accepted, every reset step runs and nothing fails |
| `PanelReset.SignalsFail` | ac073tc1.go:192-200 | a failed line write after good ones ends the pulse there with its error |
| `PanelReset.ResetSucceeds` | ac073tc1.go:192-200 | the pulse is select low, reset high, 100 ms, reset low, 100 ms, reset high, 1 s |
| `PanelSetup.Initialise` | ac073tc1.go:204-233 | the table loop appends exactly the calls and returns exactly the error of running the table fatally |
| `PanelSetup.SetupJoin` | ac073tc1.go:191-235 | the reset pulse and the table loop compose into setup |
| `PanelSetup.Setup` | ac073tc1.go:191-235 | setup appends exactly the calls and returns exactly the error of its specification |
| `PanelSetup.TableSucceeds` | ac073tc1.go:204-233 | when the kernel accepts everything, each command is written in table order and nothing fails |
| `PanelSetup.SetupSucceeds` | ac073tc1.go:191-233 | setup is the seven reset steps followed by every table command in order, with no error |
| `PanelSetup.SetupStopsAtReset` | ac073tc1.go:192-199 | a failed reset pulse is all setup does, and its error is setup's |
| `PanelSetup.SetupStopsAtCommand` | ac073tc1.go:229-232 | a setup failing after a good reset ends with the failing table write, every earlier write having gone through |
| `PanelSetup.TresIsResolution` | ac073tc1.go:220 | the table has 19 entries and entry 12, TRES, carries 800 and 480 as big-endian 16-bit values |
| `PanelPaint.Paint` | ac073tc1.go:237-258 | paint appends exactly the calls and returns exactly the error of running its table fatally |
| `PanelPaint.PaintTableSucceeds` | ac073tc1.go:239-256 | when the kernel accepts everything, each step's write and then its wait happen, in order |
| `PanelPaint.PaintSucceeds` | ac073tc1.go:244-256 | paint is DTM(frame), 1 s, PON, 1 s, DRF(0), 35 s, POF(0), 1 s |
| `PanelPaint.PaintStopsAtFailure` | ac073tc1.go:250-253 | a failed paint ends with the failing write: no wait after it and no later step |
| `Frame.Shrink` | ac073tc1.go:166-172 | the result is a new array holding the packed frame: byte i is pixel 2i shifted into the high nibble or-ed with pixel 2i + 1 |
| `Frame.PackedLength` | ac073tc1.go:167 | the packed frame is `len(buf) / 2` bytes, dropping a trailing odd pixel |
| `Frame.PairNibbles` | ac073tc1.go:169 | a byte packed from two nibbles has the first in its high and the second in its low nibble |
| `Frame.PairSplits` | ac073tc1.go:169 | every byte is its high nibble shifted up, or-ed with its low nibble |
| `Frame.UnpackPacked` | ac073tc1.go:166-172 | unpacking a packed frame of palette indices gives the pixels back, less a trailing odd one |
| `Frame.PackUnpacked` | ac073tc1.go:166-172 | packing what unpacking gives returns the bytes |
| `Frame.LowerBound` | ac073tc1.go:178 | the binary search result is a position in the list or its end |
| `Frame.LowerBoundSplits` | ac073tc1.go:178 | in a sorted list, the entries before the search result are below the target and the rest are not |
| `Frame.DemoStripe` | ac073tc1.go:178-179 | pixel (x, y)'s colour is the stripe colour at the number of edges strictly below `x - y` |
| `Frame.DrawLowFirstStep` | ac073tc1.go:179 | or-ing one pixel into its byte extends the drawn part by that pixel |
| `Frame.DrawLowFirstRow` | ac073tc1.go:177-180 | the inner loop draws all of row y |
| `Frame.DrawLowFirst` | ac073tc1.go:174-183 | the loops fill a new array with the frame whose byte for pair m of row y holds pixel 2m + 1 high and pixel 2m low |
| `Frame.Demobuf` | ac073tc1.go:174-183 | the stripe frame is built in a new array in that layout |
| `Frame.DemoPixelNibbles` | ac073tc1.go:179 | every stripe colour is a palette index below 16 |
| `Frame.DemoFrameSwapsPairs` | ac073tc1.go:179 | byte 0 of the stripe frame is 0x41 where packing its pixels gives 0x14, so pixel 0 unpacks as red, not white |
| `Frame.LowFirstSwapsPairs` | ac073tc1.go:179 | what the loops draw unpacks to the image with the two pixels of every pair exchanged |
| `Frame.LowFirstNibbles` | ac073tc1.go:179 | in what the loops draw, pixel (x, y) is the low nibble of its byte for even x and the high nibble for odd x |
| `Frame.DemoFrameNibbles` | ac073tc1.go:174-183 | the stripe frame is 192000 bytes and holds pixel (x, y) in the low nibble for even x, high for odd x |
| `Frame.PackedPixels` | ac073tc1.go:166-172 | packing a full-screen image puts pixel 2m of row y in the high nibble of byte `y * 400 + m` |
| `Frame.DrawHighFirstStep` | ac073tc1.go:179 | with the shift reversed, or-ing one pixel extends the drawn part by that pixel |
| `Frame.DrawHighFirstRow` | ac073tc1.go:177-180 | with the shift reversed, the inner loop draws all of row y |
| `Frame.DrawHighFirst` | ac073tc1.go:174-183 | with the shift reversed, the loops fill a new array with exactly the packed image, as `shrink` packs it |
| `Frame.DemobufIntended` | ac073tc1.go:174-183 | the corrected stripe frame is the stripes packed as `shrink` packs them and unpacks to the stripes |
| `Suffix.HasAnySuffix` | ac073tc1.go:281-288 | true exactly when some listed suffix ends the name, so false for an empty list |
| `Suffix.HasSuffixIsConcat` | ac073tc1.go:284 | a name ends with a suffix exactly when it is some string followed by that suffix |
| `Suffix.ImageNames` | ac073tc1.go:105 | "cat.jpeg" and "a.png" are taken; "cat.JPG", "notes.txt" and a bare "jpg" are not |

## Left out

- `main`'s plumbing (ac073tc1.go:88-163) is I/O and process control, not logic:
  - flag parsing, the directory listing and random pick, image decoding;
  - saving a PNG, logging and the progress dots;
  - the order in which the devices are opened and closed.
- `log.Fatal` and `must` end the process. Here they return the error from
  setup or paint at once; the process exit itself is not modelled.
- Bilinear scaling and Floyd–Steinberg dithering (ac073tc1.go:129-133).
  These are calls into `golang.org/x/image/draw`, which is not part of this
  model. The pixels handed to `shrink` are any bytes. Palette indices
  (0 to 6) are the nibbles the round-trip lemmas ask for.
- Fit uses exact `real` arithmetic in place of float64, so it can differ by
  one pixel where float64 rounds the ratio across an integer boundary.
- Fit requires an image with at least one row (`dy` > 0). With no rows Go's
  float division does not fail: the ratio is +Inf for `dx` > 0, which takes
  the wide branch and gives the empty region (0, 240)-(800, 240), and NaN
  for `dx` = 0, whose conversion to int Go leaves to the platform. An image
  with no columns (`dx` = 0, `dy` > 0) is modelled (`Canvas.FitNoColumns`).
- HasAnySuffix takes file names as Unicode text (`string`). Go's names are
  byte strings, so a directory entry whose name is not valid UTF-8 has no
  counterpart here; on valid UTF-8 names the byte and character suffix
  tests agree.
- The kernel's behaviour is the `reply` oracle. File descriptors, the
  receive buffer of a transfer and `unsafe.Pointer` addresses are not
  modelled.
- Sleeps are `SleepCall(ms)` events; no clock is modelled.
- The errors carry the errno and the failing argument. The formatted
  message text is not modelled.
- The loops and sequences of `write`, `setup` and `demobuf` are split
  into helper methods (`SendChunks`, `WritePayload`, `Reset`, `Initialise`,
  `DrawLowFirstRow`):
  - together they make the same calls in the same order;
  - the colour lookup of `demobuf` is the pixel function `DemoPixel`,
    passed to the drawing loops.
- `slices.BinarySearch` is the function `Frame.LowerBound`, the insertion
  point in a sorted list.
- `Frame.LowerBound`: its contract bounds the result only. What the
  position means is stated by `Frame.LowerBoundSplits` for sorted lists,
  the only lists the source searches.
- Paint's frame is always a non-nil slice here, since `shrink` and
  `demobuf` both allocate one.
- `Uapi.Ioc`: its contract states only the 32-bit range. The field
  round-trip is `Uapi.IocRoundTrip`.

## Findings

| source | as written | input that shows it | evidently intended | confidence | as-written member | corrected member |
|---|---|---|---|---|---|---|
| ac073tc1.go:126 | the aspect ratio is compared with `width/height`, an integer constant division equal to 1 | a 6×5 image is placed at (0, -93)-(800, 573), reaching 93 pixels past the top and bottom of the 480-pixel canvas; every ratio in (1, 800/481] spills | compare with the canvas's ratio 800/480, so the image always fits inside the canvas | not executed; high | `Canvas.FitSpillsExample` | `Canvas.FitIntendedInside` |
| ac073tc1.go:179 | the colour is shifted by `4 * (x & 1)`, which puts the even-x pixel in the low nibble, while `shrink` and the panel format put it in the high nibble | pixels (0, 0) white and (1, 0) red: byte 0 is 0x41, where the packed format gives 0x14, so the two pixels appear swapped | shift by `4 * (1 - (x & 1))` | not executed; medium | `Frame.DemoFrameSwapsPairs` | `Frame.DemobufIntended` |
