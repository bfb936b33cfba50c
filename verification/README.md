# R61520 framebuffer and Miyoo keypad: a Dafny model

This project models the pure logic inside two Linux drivers for the
F1C100s/F1C500s handheld:

- **R61520 framebuffer** (`drivers/video/fbdev/r61520fb_dma_fbcon_20190106.c`).
  The panel's 8080-style parallel bus is emulated on the port-D pins.
  - Each bus cycle is two 32-bit words written to the pin-data register.
    The first word has the strobe low; the second is the same word with the strobe raised.
  - `sunxi_lcdc_output` encodes one cycle.
  - `sunxi_dma_frame` fills a transfer buffer with the memory-write command and then one data cycle per pixel.
  - DMA channels 0..3 stream such buffers to the pin-data register. `sunxi_dma_init`, `sunxi_dma_start` and `dma_irq_handler` program them through `writel` and the read-modify-write helper `setbits`. Its counterpart `clrbits` is only called from an `#if 0` block; the model states its effect but no modelled operation uses it.
  - `myfb_check_var` accepts only the 320x240 16-bit mode and clamps the virtual geometry into video memory.
  - `myfb_setcolreg` scales colour-map components (`CNVT_TOHW`) into a pseudo-palette entry.
  - `myfb_probe` sizes the video memory and the transfer buffers.
- **Miyoo keypad** (`drivers/input/keyboard/miyoo_kbd_20190414.c`).
  Every timer tick, `scan_handler` samples the pins into a 16-bit button mask. It then:
  - applies the lock;
  - applies the noise filter, which is gated on `bit_count`;
  - captures the SELECT hotkeys;
  - remaps the START combinations into the shoulder buttons;
  - when the mask changed, reports every key through the press/release edge detector `report_key`, using a key map that depends on the hardware version.

  `myioctl` reads the hotkey, selects the version and locks the keypad.

Modules, one per file:

| module | file | contents |
|---|---|---|
| `Wrappers` | `wrappers.dfy` | `Option`, `Result` |
| `Bits` | `bits.dfy` | `u32`, `u16`, 32-bit wrap-around |
| `PinProtocol` | `pin_protocol.dfy` | word encoding, frame encoder, the panel-side decoder that inverts them |
| `FbVar` | `fb_var.dfy` | `myfb_check_var`, `CNVT_TOHW`, `myfb_setcolreg` |
| `FbProbe` | `fb_probe.dfy` | buffer sizes of `myfb_probe`, and why they suffice |
| `Dma` | `dma.dfy` | DMA register file, `setbits` (and the unused `clrbits`), start, interrupt, init, probe sequence |
| `Keypad` | `keypad.dfy` | button masks, `bit_count`, sampling, lock, noise filter, hotkey, combos |
| `KeyEvents` | `key_events.dfy` | `report_key`, key map, change detection, driver state, `myioctl` |

Representation choices:

- **Transaction words and register values** are `bv32`, as in the C code.
- **Geometry fields** of `myfb_check_var` are unbounded integers limited to 32 bits. Every product and sum the C code computes in 32 bits is wrapped explicitly with `Wrap`.
- **A button mask** is a sequence of 16 booleans, indexed by bit position. `Keypad.Value` gives back the C integer, and `Keypad.ButtonValues` pins each button to the driver's `MY_*` constant.
- **The DMA register file** is a record of the registers the driver touches, plus a log of the writes in order.
- **The keypad's static variables** (`pre`, `hotkey`, `lockkey`, `miyoo_ver` and `report_key`'s two masks) form one immutable `KeyEvents.Driver` value. Ticks and ioctls are functions over it.

Facts about the driver code that shape the model:

- **Buffer pool.** The driver encodes and streams only transfer buffer 0, and never swaps buffers.
- **Interrupt handler.** `dma_irq_handler` acknowledges the interrupt and sets the enable bit of channel 0 again. It does not reprogram the channel. It writes the acknowledgement twice, once itself and once inside `sunxi_dma_start`.
- **Allocation failure.** The probe's allocations are not all-or-nothing: a failed lram allocation leaves the earlier ones in place (see Left out).

Two of the keypad's seven noise rules never change the mask:

- The seventh rule repeats the first. `Keypad.SeventhRuleRedundant` proves it changes nothing.
- The third rule (clear TA when LEFT, DOWN and A are held) is dead: when TA is held with LEFT and A, the second rule has just cleared DOWN. `Keypad.ThirdRuleDead` proves it.
- `Keypad.Unghosted` states the rules' combined effect in closed form.

## Model

| member | source | states |
|---|---|---|
| PinProtocol.Spread | drivers/video/fbdev/r61520fb_dma_fbcon_20190106.c:562-563 | the two spread byte fields occupy only pins 1-8 and 10-17, so pin 9 and the control pins 18-20 are never set by the value |
| PinProtocol.GatherSpread | drivers/video/fbdev/r61520fb_dma_fbcon_20190106.c:562-563 | reassembling the two byte fields recovers exactly the low 16 bits of the value: no bit is lost by the spread |
| PinProtocol.SpreadGather | drivers/video/fbdev/r61520fb_dma_fbcon_20190106.c:562-563 | on any word that drives only the bus pins, spreading what was gathered gives back the word's byte fields |
| PinProtocol.GatherIgnoresControl | drivers/video/fbdev/r61520fb_dma_fbcon_20190106.c:564-568 | setting control pins outside the byte fields does not change the value read back |
| PinProtocol.Word | drivers/video/fbdev/r61520fb_dma_fbcon_20190106.c:562-566 | the strobe-low word drives only bus pins, has pin 20 set and the strobe clear, has the data pin exactly when `is_data` is nonzero, and decodes to (`is_data`, low 16 bits of `val`) |
| PinProtocol.StrobeKeepsTransaction | drivers/video/fbdev/r61520fb_dma_fbcon_20190106.c:567-568 | raising the strobe does not change the transaction the panel reads |
| PinProtocol.StrobeRaisesOnePin | drivers/video/fbdev/r61520fb_dma_fbcon_20190106.c:567 | on a strobe-low word, or-ing 0x40000 sets the strobe and changes no other bit |
| PinProtocol.Output | drivers/video/fbdev/r61520fb_dma_fbcon_20190106.c:558-569 | `sunxi_lcdc_output` writes exactly two words; the second is the first with the strobe raised, and both decode alike |
| PinProtocol.OutputCoversWellFormed | drivers/video/fbdev/r61520fb_dma_fbcon_20190106.c:558-569 | every well-formed strobe-low word is the output for the transaction it decodes to, so encoding is a bijection onto well-formed words |
| PinProtocol.CycleRoundTrip | drivers/video/fbdev/r61520fb_dma_fbcon_20190106.c:558-569 | the panel-side decoder recovers every transaction from its two-word cycle |
| PinProtocol.CycleExact | drivers/video/fbdev/r61520fb_dma_fbcon_20190106.c:558-569 | re-encoding what a well-formed word decodes to yields exactly that word and its strobe-high copy |
| PinProtocol.WordsAt | drivers/video/fbdev/r61520fb_dma_fbcon_20190106.c:312-322 | in a stream of cycles, cycle i sits at words 2i and 2i+1 |
| PinProtocol.DecodeWords | drivers/video/fbdev/r61520fb_dma_fbcon_20190106.c:312-322 | whatever the stream decoder accepts re-encodes to the same word stream |
| PinProtocol.WordsRoundTrip | drivers/video/fbdev/r61520fb_dma_fbcon_20190106.c:312-322 | decoding the words of any cycle sequence returns that sequence |
| PinProtocol.FrameCycles | drivers/video/fbdev/r61520fb_dma_fbcon_20190106.c:306-323 | a frame is the 0x2c command cycle followed by one data cycle per pixel, in order, `total + 1` cycles in all |
| PinProtocol.FrameHeader | drivers/video/fbdev/r61520fb_dma_fbcon_20190106.c:299-324 | a frame of any `total` pixels, none included, has `2 + 2*total` words, and words 0-1 are the command output for 0x2c |
| PinProtocol.FrameLayout | drivers/video/fbdev/r61520fb_dma_fbcon_20190106.c:312-322 | pixel i of a frame is the data output at words 2+2i and 3+2i, after the header |
| PinProtocol.FrameReadsOnlyPrefix | drivers/video/fbdev/r61520fb_dma_fbcon_20190106.c:304-316 | the encoder's output depends only on the first `total` pixels of the source |
| PinProtocol.EncodeFrame | drivers/video/fbdev/r61520fb_dma_fbcon_20190106.c:299-324 | the loop of `sunxi_dma_frame` writes exactly the frame's words, `2 + 2*total` of them |
| PinProtocol.ParseFrame | drivers/video/fbdev/r61520fb_dma_fbcon_20190106.c:306-323 | any cycle sequence the frame parser accepts is the frame of the pixels it returns |
| PinProtocol.ParseRoundTrip | drivers/video/fbdev/r61520fb_dma_fbcon_20190106.c:306-323 | parsing a frame's cycles returns exactly the pixels encoded |
| PinProtocol.DecodeFrame | drivers/video/fbdev/r61520fb_dma_fbcon_20190106.c:299-324 | any word buffer the panel-side decoder accepts is the encoding of the pixels it returns |
| PinProtocol.FrameRoundTrip | drivers/video/fbdev/r61520fb_dma_fbcon_20190106.c:299-324 | decoding an encoded transfer buffer gives back exactly the pixels read |
| FbVar.CheckVarAsWritten | drivers/video/fbdev/r61520fb_dma_fbcon_20190106.c:114-154 | the mode is refused with EINVAL exactly when it is not 320x240 at 16 bits; an accepted mode is the clamped mode: virtual height from the wrapped height clamp, `xres` and `yres` cut to the virtual sizes, offsets from the wrapped offset clamp, RGB565 layout, virtual width and depth kept; it meets every bound the code checks, in 32-bit wrapped arithmetic |
| FbVar.ClampHeightAsWritten | drivers/video/fbdev/r61520fb_dma_fbcon_20190106.c:138-140 | if the wrapped byte size fits video memory the height is kept; otherwise it becomes `vram_size / line_size`, the most whole lines that fit; either way it never grows and its wrapped byte size fits |
| FbVar.ClampOffsetAsWritten | drivers/video/fbdev/r61520fb_dma_fbcon_20190106.c:147-152 | if the wrapped sum with the resolution fits the virtual size the offset is kept; otherwise it becomes `virtual - res`; either way it never grows and the wrapped sum fits |
| FbVar.LineBudget | drivers/video/fbdev/r61520fb_dma_fbcon_20190106.c:139 | the quotient is the largest whole number of lines that fits the budget |
| FbVar.CheckVar | drivers/video/fbdev/r61520fb_dma_fbcon_20190106.c:114-154 | the same accept/refuse decision; an accepted mode is the clamped mode, with the unwrapped height and offset clamps, `xres` and `yres` cut to the virtual sizes, RGB565 layout, virtual width and depth kept; it truly fits: window inside the virtual screen, virtual screen inside video memory |
| FbVar.ClampHeight | drivers/video/fbdev/r61520fb_dma_fbcon_20190106.c:138-140 | if the true byte size fits video memory the height is kept; otherwise it becomes `vram_size / line_size`; either way it never grows and the true byte size fits |
| FbVar.ClampOffset | drivers/video/fbdev/r61520fb_dma_fbcon_20190106.c:147-152 | if the true sum with the resolution fits the virtual size the offset is kept; otherwise it becomes `virtual - res`; either way it never grows and the true sum fits |
| FbVar.CheckVarKeepsFittingMode | drivers/video/fbdev/r61520fb_dma_fbcon_20190106.c:138-152 | a panel mode that already fits comes back unchanged but for its colour layout |
| FbVar.CheckVarIdempotent | drivers/video/fbdev/r61520fb_dma_fbcon_20190106.c:114-154 | checking an accepted mode again changes nothing, when clamping kept the 320x240 resolution (a clamped height below 240 makes the second check refuse) |
| FbVar.CheckVarAgreesWithoutOverflow | drivers/video/fbdev/r61520fb_dma_fbcon_20190106.c:138-152 | when no product or sum reaches 2^32, the code as written computes exactly the intended result |
| FbVar.ClampHeightAgrees | drivers/video/fbdev/r61520fb_dma_fbcon_20190106.c:138-140 | without overflow the written and intended height clamps agree |
| FbVar.ClampOffsetAgrees | drivers/video/fbdev/r61520fb_dma_fbcon_20190106.c:147-152 | without overflow the written and intended offset clamps agree |
| FbVar.WithRgb565 | drivers/video/fbdev/r61520fb_dma_fbcon_20190106.c:125-136 | the installed channel layout is red 11/5, green 5/6, blue 0/5, no transparency |
| FbVar.CnvtToHw | drivers/video/fbdev/r61520fb_dma_fbcon_20190106.c:102 | a 16-bit component scaled to width 5 fits 5 bits, and to width 6 fits 6 bits |
| FbVar.CnvtToHwFits | drivers/video/fbdev/r61520fb_dma_fbcon_20190106.c:102 | for 16-bit components, the 5- and 6-bit scalings fit their fields and map 0 to 0 and 0xffff to all ones |
| FbVar.Rgb565Pack | drivers/video/fbdev/r61520fb_dma_fbcon_20190106.c:109 | packing in-range fields at offsets 11, 5 and 0 fits 16 bits and each field reads back unchanged |
| FbVar.PaletteEntry | drivers/video/fbdev/r61520fb_dma_fbcon_20190106.c:106-109 | under the RGB565 layout the stored entry fits 16 bits and its three fields are the scaled components |
| FbVar.SetColRegAsWritten | drivers/video/fbdev/r61520fb_dma_fbcon_20190106.c:103-110 | the store goes to slot `regno` whatever its value; under RGB565 with 16-bit components the stored word fits 16 bits and its red, green and blue fields are the 5-, 6- and 5-bit scalings |
| FbVar.SetColReg | drivers/video/fbdev/r61520fb_dma_fbcon_20190106.c:103-110 | an index below 16 stores the packed entry there and leaves every other entry alone; any other index is refused |
| FbProbe.Gcd | drivers/video/fbdev/r61520fb_dma_fbcon_20190106.c:645 | the result is positive unless both inputs are 0, and divides both inputs |
| FbProbe.Lcm | drivers/video/fbdev/r61520fb_dma_fbcon_20190106.c:645 | the result is a positive common multiple of both inputs, and times the gcd it is their product |
| FbProbe.Bezout | drivers/video/fbdev/r61520fb_dma_fbcon_20190106.c:645 | the gcd is an integer combination of the two inputs |
| FbProbe.GcdGreatest | drivers/video/fbdev/r61520fb_dma_fbcon_20190106.c:645 | every common divisor of two inputs, not both 0, is at most their gcd |
| FbProbe.LcmLeast | drivers/video/fbdev/r61520fb_dma_fbcon_20190106.c:645 | every positive common multiple of two positive inputs is at least their lcm |
| FbProbe.RoundUp | drivers/video/fbdev/r61520fb_dma_fbcon_20190106.c:646 | the result is the multiple of the unit in `[x, x + unit)` |
| FbProbe.VramBytes | drivers/video/fbdev/r61520fb_dma_fbcon_20190106.c:644-646 | video memory holds a whole frame, is a whole number of pages and a whole number of double lines |
| FbProbe.VramSizeValue | drivers/video/fbdev/r61520fb_dma_fbcon_20190106.c:623-647 | for 320x240 at 16 bits the video memory is 163840 bytes, 256 lines of 640 bytes |
| FbProbe.FullFrameFillsLram | drivers/video/fbdev/r61520fb_dma_fbcon_20190106.c:663 | a full 320x240 frame encodes to exactly `lram_size` bytes |
| FbProbe.AcceptedModeBounded | drivers/video/fbdev/r61520fb_dma_fbcon_20190106.c:179-183 | a mode accepted by the check and copied into `par->mode` has at most 320*240 pixels |
| FbProbe.FrameFitsBuffers | drivers/video/fbdev/r61520fb_dma_fbcon_20190106.c:301-304 | encoding at most 320*240 pixels reads inside the swap buffer and writes inside an lram buffer |
| FbProbe.HeightOverflowAccepted | drivers/video/fbdev/r61520fb_dma_fbcon_20190106.c:138-140 | a virtual height whose byte size wraps past 2^32 is accepted unclamped, while the intended check clamps it to 256 |
| FbProbe.XOffsetOverflowAccepted | drivers/video/fbdev/r61520fb_dma_fbcon_20190106.c:147-149 | a horizontal offset whose sum wraps is accepted, while the intended check resets it to 0 |
| FbProbe.YOffsetOverflowAccepted | drivers/video/fbdev/r61520fb_dma_fbcon_20190106.c:150-152 | a vertical offset whose sum wraps is accepted, while the intended check resets it to 0 |
| FbProbe.PaletteIndexUnchecked | drivers/video/fbdev/r61520fb_dma_fbcon_20190106.c:103-109 | every index 16..31 is inside the 32-entry colour map, yet the store as written goes past the 16-entry pseudo-palette; the checked version refuses each of them |
| Dma.WriteBlock | drivers/video/fbdev/r61520fb_dma_fbcon_20190106.c:477-481 | a `writel` to the DMA block or the clock unit leaves every channel alone and is appended to the write log |
| Dma.WriteChannel | drivers/video/fbdev/r61520fb_dma_fbcon_20190106.c:483-487 | a `writel` to one channel's register leaves the block and every other channel alone and is appended to the write log |
| Dma.SetBitsChangesOnlyMask | drivers/video/fbdev/r61520fb_dma_fbcon_20190106.c:271-278 | `setbits` sets every mask bit and leaves every other bit as read |
| Dma.ClrBitsChangesOnlyMask | drivers/video/fbdev/r61520fb_dma_fbcon_20190106.c:262-269 | `clrbits` clears every mask bit and leaves every other bit as read |
| Dma.SetBitsIdempotent | drivers/video/fbdev/r61520fb_dma_fbcon_20190106.c:271-278 | setting the same bits twice is the same as once |
| Dma.ClrBitsUndoesSetBits | drivers/video/fbdev/r61520fb_dma_fbcon_20190106.c:262-278 | clearing bits that were clear before a `setbits` restores the register |
| Dma.DmaStart | drivers/video/fbdev/r61520fb_dma_fbcon_20190106.c:280-297 | the interrupt status is written with all ones first; only for index 0..3 is that channel's enable bit then set; every other channel is untouched |
| Dma.DmaStartIdempotent | drivers/video/fbdev/r61520fb_dma_fbcon_20190106.c:280-297 | starting a channel again leaves the register state unchanged |
| Dma.IrqHandler | drivers/video/fbdev/r61520fb_dma_fbcon_20190106.c:591-600 | the handler acknowledges first, then re-enables channel 0 only |
| Dma.IrqHandlerRestartsChannelZero | drivers/video/fbdev/r61520fb_dma_fbcon_20190106.c:591-600 | the handler's effect on the registers is that of starting channel 0 |
| Dma.InitBlock | drivers/video/fbdev/r61520fb_dma_fbcon_20190106.c:477-481 | bit 6 (the DMA block) is set in the bus gating and soft-reset registers by read-modify-write; then interrupt control gets 0, status all ones and control 0x00aa0000, in that order; no channel changes |
| Dma.SetUpChannel | drivers/video/fbdev/r61520fb_dma_fbcon_20190106.c:483-487 | one channel gets the fixed configuration word, its transfer buffer as source, the pin-data register as destination and the transfer length; the others are unchanged |
| Dma.DmaInit | drivers/video/fbdev/r61520fb_dma_fbcon_20190106.c:475-505 | after init, channels 0..3 each stream their own transfer buffer to the pin-data register, in the order the driver writes them |
| Dma.TransferBytesIsLramSize | drivers/video/fbdev/r61520fb_dma_fbcon_20190106.c:487 | the programmed transfer length equals `lram_size` |
| Dma.ProbeDma | drivers/video/fbdev/r61520fb_dma_fbcon_20190106.c:690-730 | after the probe's `sunxi_dma_init` (line 690) and `sunxi_dma_start` on buffer 0 (line 730), channel 0 runs on buffer 0 and channels 1..3 keep their set-up values; `sunxi_dma_frame` (line 729) writes only the transfer buffer, no register, so it does not change the modelled bus |
| Dma.ProbeLeavesOnlyChannelZeroRunning | drivers/video/fbdev/r61520fb_dma_fbcon_20190106.c:483-505 | the configuration word 0x02290201 leaves a channel stopped, and starting it makes it 0x82290201 |
| Keypad.Only | drivers/input/keyboard/miyoo_kbd_20190414.c:40-54 | every button constant is a single-bit mask |
| Keypad.ButtonValues | drivers/input/keyboard/miyoo_kbd_20190414.c:40-54 | each button's mask has the value of its `MY_*` constant |
| Keypad.BitCount | drivers/input/keyboard/miyoo_kbd_20190414.c:152-163 | `bit_count` returns the number of set bits of its 32-bit argument, at most 32 |
| Keypad.BitCountOfMask | drivers/input/keyboard/miyoo_kbd_20190414.c:152-163 | on a button mask, the set bits counted are the buttons held |
| Keypad.ScanMatrix | drivers/input/keyboard/miyoo_kbd_20190414.c:171-201 | bit `4*scan + k` is set exactly when input k+1 reads low while row `scan` is driven; bits 12-15 stay clear; so the result is the grid's mask |
| Keypad.MatrixExtras | drivers/input/keyboard/miyoo_kbd_20190414.c:202-221 | L1, R1 and the A and TA inputs raise their own buttons, the L2 input raises B and the R2 input raises TB; nothing else changes |
| Keypad.DirectButtons | drivers/input/keyboard/miyoo_kbd_20190414.c:246-284 | each direct-wired input raises its own button, and bit 0, L2 and R2 stay clear |
| Keypad.MatrixExtrasBits | drivers/input/keyboard/miyoo_kbd_20190414.c:171-221 | bit by bit: every matrix bit but TB, TA, B and A is the grid key; those four are the grid key OR-ed with the R2, TA, L2 and A pins; L1 and R1 are their pins; L2 and R2 stay clear |
| Keypad.ReadButtons | drivers/input/keyboard/miyoo_kbd_20190414.c:170-285 | versions up to 2 give exactly the grid's mask with the extras, bit by bit as above; later versions give exactly the direct pins; no version ever samples L2 or R2 |
| Keypad.Lock | drivers/input/keyboard/miyoo_kbd_20190414.c:287-289 | locked, R passes as sampled and every other button is cleared, so at most one button is left; unlocked, the mask passes unchanged |
| Keypad.NoiseFilter | drivers/input/keyboard/miyoo_kbd_20190414.c:291-314 | with at most two buttons held nothing changes; with more, the result is the closed form: TA dropped exactly under LEFT+UP+B, DOWN exactly under LEFT+A+TA, START exactly under LEFT+DOWN+B, or under B+A or RIGHT+UP+B+TB with a TA that survived; nothing else changes |
| Keypad.FirstSixRules | drivers/input/keyboard/miyoo_kbd_20190414.c:293-310 | the first six noise rules only drop START, DOWN or TA, each exactly under the patterns of the closed form |
| Keypad.NoiseRules | drivers/input/keyboard/miyoo_kbd_20190414.c:293-313 | all seven noise rules only drop START, DOWN or TA, each exactly under the patterns of the closed form |
| Keypad.SeventhRuleRedundant | drivers/input/keyboard/miyoo_kbd_20190414.c:311-313 | the seventh rule never changes what the first six left |
| Keypad.ThirdRuleDead | drivers/input/keyboard/miyoo_kbd_20190414.c:296-301 | the third rule never changes the mask the first two leave |
| Keypad.FirstHeld | drivers/input/keyboard/miyoo_kbd_20190414.c:316-364 | the result is the first partner in priority order that is held, and none is found only when no partner is held |
| Keypad.Hotkey | drivers/input/keyboard/miyoo_kbd_20190414.c:316-343 | the hotkey stage only releases buttons, keeps SELECT, keeps a pending hotkey, and stores only codes 1..4 |
| Keypad.HotkeyFollowsTable | drivers/input/keyboard/miyoo_kbd_20190414.c:316-343 | SELECT with B, A, TB or TA (first held wins) clears exactly that partner and stores 3, 4, 1 or 2 only if no hotkey is pending; otherwise nothing changes |
| Keypad.Combo | drivers/input/keyboard/miyoo_kbd_20190414.c:345-364 | afterwards START is never held with B, A, TB or TA; SELECT is untouched; only sampled buttons and shoulder buttons can be held |
| Keypad.ComboFollowsTable | drivers/input/keyboard/miyoo_kbd_20190414.c:345-364 | START with B, A, TB or TA (first held wins) clears START and that partner and presses L1, R1, L2 or R2; otherwise nothing changes |
| Keypad.Transform | drivers/input/keyboard/miyoo_kbd_20190414.c:287-364 | the whole post-sampling pipeline only yields sampled or shoulder buttons, keeps a pending hotkey, and stores only codes 1..4 |
| Keypad.LockedTransform | drivers/input/keyboard/miyoo_kbd_20190414.c:287-364 | with the lock on, the mask is R alone or empty and the hotkey is unchanged |
| KeyEvents.ReportKey | drivers/input/keyboard/miyoo_kbd_20190414.c:125-150 | the button ends recorded pressed exactly when held and released exactly when free; no other bit changes; at most one event, carrying the key and the held state |
| KeyEvents.ReportKeyEdges | drivers/input/keyboard/miyoo_kbd_20190414.c:125-150 | a press is reported exactly on a not-pressed to held transition and a release exactly on the reverse; with exclusive masks an event comes exactly when the state changes, and the masks stay exclusive |
| KeyEvents.ReportKeyTwice | drivers/input/keyboard/miyoo_kbd_20190414.c:125-150 | a second call with the same input reports nothing and changes nothing |
| KeyEvents.KeyFor | drivers/input/keyboard/miyoo_kbd_20190414.c:368-391 | every button but bit 0 has a key |
| KeyEvents.KeyMap | drivers/input/keyboard/miyoo_kbd_20190414.c:368-391 | the pass makes 15 reports, each for a button other than bit 0 with the key that button has |
| KeyEvents.KeyMapShape | drivers/input/keyboard/miyoo_kbd_20190414.c:368-391 | the map names every button but bit 0 once, each with its key; versions 1 and 3 give LEFT the left key and R the right control key, other versions swap them, and the keys come out in the same order |
| KeyEvents.PositionOf | drivers/input/keyboard/miyoo_kbd_20190414.c:368-391 | every button but bit 0 has a place in the key map of every version |
| KeyEvents.KeyMapButtons | drivers/input/keyboard/miyoo_kbd_20190414.c:368-391 | the map reports exactly buttons 1..15 |
| KeyEvents.ReportAll | drivers/input/keyboard/miyoo_kbd_20190414.c:368-391 | a report pass leaves the recorded state of unmapped buttons alone |
| KeyEvents.ReportAllReportsChanges | drivers/input/keyboard/miyoo_kbd_20190414.c:366-392 | if the recorded state tracked the old mask, a pass emits exactly one event per changed button, in map order, and then tracks the new mask |
| KeyEvents.ReportPass | drivers/input/keyboard/miyoo_kbd_20190414.c:366-392 | on every version a pass emits exactly the changed keys and leaves the state tracking the new mask |
| KeyEvents.ChangesEmpty | drivers/input/keyboard/miyoo_kbd_20190414.c:366-392 | a pass owes no event exactly when no mapped button changed |
| KeyEvents.LoadedInv | drivers/input/keyboard/miyoo_kbd_20190414.c:82-84 | the state at load (version 1, no hotkey, unlocked, nothing pressed, everything released) satisfies the invariant |
| KeyEvents.Scan | drivers/input/keyboard/miyoo_kbd_20190414.c:366-393 | a tick remembers the transformed mask and hotkey and touches neither the version nor the lock |
| KeyEvents.ScanKeepsInv | drivers/input/keyboard/miyoo_kbd_20190414.c:366-393 | a tick keeps the invariant, reports exactly the key changes from the previous mask (none when it is unchanged), and keeps a pending hotkey |
| KeyEvents.Ioctl | drivers/input/keyboard/miyoo_kbd_20190414.c:406-428 | reading the hotkey hands back the pending code and clears it; setting the version stores it, with 0 meaning 1; locking stores the flag; other commands change nothing |
| KeyEvents.IoctlKeepsInv | drivers/input/keyboard/miyoo_kbd_20190414.c:406-428 | every command keeps the invariant and leaves the key state alone |
| KeyEvents.HotkeyReadRearms | drivers/input/keyboard/miyoo_kbd_20190414.c:412-414 | after the hotkey is read, SELECT+B stores code 3 again |

## Left out

- `sunxi_lcdc_init`, `sunxi_lcdc_gpio_config` and `sunxi_cpu_init` are register sequencing with no logic to state, and the probe never calls `sunxi_lcdc_init`. The `#if 0` blocks are dead code.
- Allocation and its failure paths in `myfb_probe`. A failed lram allocation leaks the earlier buffers. Buffers are modelled as given.
- Teardown in `myfb_remove`: it frees the buffers before releasing the interrupt and never stops the channel.
- Transfer buffers 4..7. They are allocated but never used, because only channels 0..3 are set up and only buffer 0 is encoded or streamed.
- The `tram` swap buffer is never filled from video memory, since that copy is commented out. The encoder is modelled over an abstract pixel sequence.
- `myfb_pan_display` only records offsets.
- `myfb_mmap`, `myfb_ioctl` (prints only), `myfb_set_par` apart from its copy of the mode, fbdev registration, power management, ioremap, and module init/exit.
- The absolute address of `PD_DATA` comes from an SoC header outside this model, so `Dma.DmaInit` takes it as a parameter.
- Dma.DmaStart: the interrupt-status register is modelled as holding the last value written. The hardware's write-one-to-clear behaviour is not modelled; the write log records the order of writes.
- FbVar.CnvtToHw: the bound on the result is stated for widths 5 and 6 only, the widths the RGB565 layout uses; other widths get no bound.
- FbVar.CnvtToHwFits: the scaling bound is proved for the RGB565 widths 5 and 6 only, the widths `myfb_check_var` installs. `FbVar.PaletteEntry` also requires shift amounts below 32, since a C shift by 32 or more is undefined.
- KeyEvents.Ioctl: the result of `copy_to_user` is ignored by the driver and not modelled, and `myioctl` always returns 0. `MIYOO_KBD_SET_VER` also prints; that is left out.
- Keypad.ReadButtons: the pins are taken as sampled levels (true = reads low). GPIO direction changes, the row-driving protocol and the `!USE_UART` branch (compiled out) are left out.
- The keypad mask is modelled over bits 0..15, the bits the driver ever sets; bits 16..31 of `val` are always zero.
- The input subsystem, chrdev setup, the timer rescheduling, and concurrency between the timer, interrupts and ioctls are left out. Events are returned as a sequence, and `input_sync` is not modelled.

## Findings

| source | as written | input that shows it | evidently intended | confidence | as-written member | corrected member |
|---|---|---|---|---|---|---|
| drivers/video/fbdev/r61520fb_dma_fbcon_20190106.c:138-140 | `line_size * yres_virtual` is computed in 32 bits, so a huge virtual height wraps to a small product and escapes the clamp | xres_virtual 320, yres_virtual 6710887 at 16 bpp: the product is 2^32 + 384 and wraps to 384 | clamp to the 256 lines that fit in 163840 bytes | high, not executed | FbProbe.HeightOverflowAccepted | FbVar.CheckVar |
| drivers/video/fbdev/r61520fb_dma_fbcon_20190106.c:147-149 | `xres + xoffset` wraps, so a huge horizontal offset passes the bound | xres 320, xoffset 0xFFFFFF00: the sum wraps to 64 | reset the offset to `xres_virtual - xres` (0) | high, not executed | FbProbe.XOffsetOverflowAccepted | FbVar.CheckVar |
| drivers/video/fbdev/r61520fb_dma_fbcon_20190106.c:150-152 | `yres + yoffset` wraps, so a huge vertical offset passes the bound | yres 240, yoffset 0xFFFFFF20: the sum wraps to 16 | reset the offset to `yres_virtual - yres` (0) | high, not executed | FbProbe.YOffsetOverflowAccepted | FbVar.CheckVar |
| drivers/video/fbdev/r61520fb_dma_fbcon_20190106.c:103-109 | `regno` indexes the 16-entry pseudo-palette without a bound check, while the colour map has 32 entries | regno 16 | refuse indices of 16 and above | medium, not executed | FbProbe.PaletteIndexUnchecked | FbVar.SetColReg |
