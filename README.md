# PicoVision core in Dafny

A Dafny model of the integer and byte-level core of the Pimoroni PicoVision
software: the RP2040 side of a board that drives an HDMI picture through a
second RP2040 (the "GPU"), with two PSRAM chips as the double-buffered frame
memory, and the example MicroPython scripts that run on it.

What is modelled, one Dafny module per source file:

- **DV display driver** (`DvDisplayHeader`, `DvDisplay`, `DvSprite`,
  `DvRecords`): frame addresses for the RGB555, palette and RGB888 formats,
  resolution and pixel-doubling choice in `init`, `set_mode`, the
  write-coalescing pixel buffer of `write_pixel`/`write_palette_pixel`, the
  split span writes, the RGB888 packing, sprite definition (opaque-span scan,
  trailing-row trim, header layout), sprite, scroll-group, scanline and
  sprite-table records, palette storage, and the GPIO-29 and high-GPIO
  register rules. The driver is a class whose fields are the source's
  fields; every RAM and I2C transfer it makes is appended to a bus log.
- **APS6404 PSRAM transfers** (`Aps6404`): the page-bounded chunking of
  `write`, `write_no_page_crossing`, `write_repeat`, `read` and
  `multi_read`, the read-command triples of `add_read_to_cmd_buffer`, and
  the `last_cmd_was_write` flag. Each PIO push or DMA start is one log entry.
- **Pens** (`PicoGraphicsDv`, `PenRgb555`, `PenRgb888`, `PenP5`): buffer
  sizes, the 32-entry palette allocator of the P5 pen, and the alpha
  blending of `render_pico_vector_tile`, including the packed
  one-multiply RGB555 blend proved equal to a channel-by-channel blend.
- **MicroPython modules** (`PicoGraphicsModule`, `PngDec`): buffer sizing,
  frame-size defaulting, the PNG signature test, `set_palette` and
  `polygon` argument errors, pen argument masking, the ARGB1555 sprite
  conversion and the PNG row callbacks with their flag and position
  bookkeeping.
- **Example scripts** (`FloppyBirb`, `BouncingLogo`, `BouncingLogoAnim`,
  `Alert`, `SeaFax`, `SneksAndLadders`, `PvGame`, `MainMenu`): the sprite
  and collision lists, the sprite-slot allocator, the streaming XML parser,
  the logo collisions, the tile-walking actor, the game states, the alert
  panel and the launcher menu. `PvGame.SpriteList` and
  `PvGame.CollisionList` also stand for the identical classes in
  floppy_birb.py and sneks_and_ladders.py (those use 32 slots).
- `DvBus` holds the bus log entries of the driver. Helpers: `Wrappers` (Option, Result), `Bytes` (little-endian packing,
  32-bit wrap-around and signed reinterpretation), `PySemantics` (Python
  list indexing, slicing, `int(a / b)` and `str(int)`).

Random numbers, clock readings, button levels, I2C read results, PSRAM read
results and the PNG decoder's output are parameters of the operations that
use them.

## Model

| member | source | states |
|---|---|---|
| DvDisplayHeader.ModeCode | drivers/dv_display/dv_display.hpp:32-36 | each pixel format's code is 1, 2 or 3 |
| DvDisplayHeader.ModeFromCode | drivers/dv_display/dv_display.hpp:32-36 | every code 1..3 names the format that has that code |
| DvDisplayHeader.ModeCodeInjective | drivers/dv_display/dv_display.hpp:32-36 | two formats share a code exactly when they are the same format |
| DvDisplayHeader.ResolutionCode | drivers/dv_display/dv_display.hpp:38-43 | the resolution codes of the build without wide modes are below 4 |
| DvDisplayHeader.BlendCode | drivers/dv_display/dv_display.hpp:53-60 | the blend-mode codes run from 0 to 4 |
| DvDisplayHeader.FrameRowStride | drivers/dv_display/dv_display.hpp:287 | a frame row takes three bytes per pixel whatever the format, so the stride is at least the width and a multiple of 3 |
| DvDisplayHeader.PointToAddress16 | drivers/dv_display/dv_display.hpp:321-323 | the address of an RGB555 pixel is the base, plus y row strides, plus 2 bytes per pixel, kept to 32 bits |
| DvDisplayHeader.PointToAddressPalette | drivers/dv_display/dv_display.hpp:325-327 | the address of a palette pixel is the base, plus y row strides, plus 1 byte per pixel, kept to 32 bits |
| DvDisplayHeader.PointToAddress24 | drivers/dv_display/dv_display.hpp:329-331 | the address of an RGB888 pixel is the base, plus y row strides, plus 3 bytes per pixel, kept to 32 bits |
| DvDisplayHeader.RowTimesThree | drivers/dv_display/dv_display.hpp:321-331 | the three address functions' row term is y times the row stride |
| DvDisplayHeader.PixelSize | drivers/dv_display/dv_display.cpp:858-865 | a pixel takes 2 bytes in RGB555, 1 in palette mode and 3 in RGB888 |
| DvDisplayHeader.PixelSizeIsAddressStep | drivers/dv_display/dv_display.hpp:321-331 | the pixel size of each format is the step between neighbouring pixels' addresses in that format's own address function |
| DvDisplayHeader.PointToAddress | drivers/dv_display/dv_display.cpp:849-856 | the address of a pixel in the current format is the base, plus y row strides, plus PixelSize bytes per pixel |
| DvDisplayHeader.PixelWithinRow | drivers/dv_display/dv_display.hpp:321-331 | each pixel's bytes lie within its own row, in every format, so two rows never overlap |
| DvDisplayHeader.SpriteSlotsFitInRam | drivers/dv_display/dv_display.hpp:104-107 | the 1024 sprite slots of 0x900 bytes each lie above the frame base, below the 8 MB top of RAM, and end to end |
| DvDisplayHeader.GetGpio29 | drivers/dv_display/dv_display.hpp:242 | GPIO 29 reads high exactly when bit 6 of the GPIO bitfield is set |
| DvDisplayHeader.IsButtonXPressed | drivers/dv_display/dv_display.hpp:273 | button X reads pressed exactly when bit 0 is clear |
| DvDisplayHeader.IsButtonAPressed | drivers/dv_display/dv_display.hpp:274 | button A reads pressed exactly when bit 1 is clear |
| DvDisplayHeader.GetGpioHi | drivers/dv_display/dv_display.hpp:262 | a Hi GPIO reads high exactly when its pin is below 8 and its bit is set |
| DvDisplayHeader.Gpio29Value | drivers/dv_display/dv_display.hpp:247 | set_gpio_29 sends a PWM value with all 8 bits set (on) or all clear (off) |
| DvDisplay.FrameWidthFor | drivers/dv_display/dv_display.cpp:98-102 | the frame width init stores fits uint16_t and is a multiple of 4 |
| DvDisplay.FrameWidthRoundsUp | drivers/dv_display/dv_display.cpp:98-102 | a frame width of 0 means the display width; the result is the smallest multiple of 4 not below the request, except that a request above 65532 wraps the uint16_t to 0 |
| DvDisplay.FrameHeightFor | drivers/dv_display/dv_display.cpp:104-105 | a frame height of 0 means the display height; any other value is kept |
| DvDisplay.HRepeatFor | drivers/dv_display/dv_display.cpp:108-118 | the horizontal repeat is 1 or 2 |
| DvDisplay.VRepeatFor | drivers/dv_display/dv_display.cpp:109-128 | the vertical repeat is 1 or 2 |
| DvDisplay.ResolutionFor | drivers/dv_display/dv_display.cpp:130-137 | the resolution table: 640 wide gives 640x480, and 720 wide gives 720x480, 720x400 or 720x576 after its height, each exactly when the output size matches |
| DvDisplay.InitResolutionTable | drivers/dv_display/dv_display.cpp:115-156 | for each resolution, the display sizes init accepts for it, both directions: doubling below 640 wide (and for 640x360, 640x720) and below 400 high; RGB888 without horizontal doubling refused |
| DvDisplay.ResModeByte | drivers/dv_display/dv_display.cpp:176-178 | the resolution register byte holds the resolution code in bits 0-6, and bit 7 is set exactly for maximum compatibility |
| DvDisplay.NumLineChunks | drivers/dv_display/dv_display.cpp:303-304 | set_scroll_idx_for_lines takes lines 32 at a time: the chunks just cover maxy - miny lines, and there are none when maxy ≤ miny |
| DvDisplay.ChunkLines | drivers/dv_display/dv_display.cpp:304 | a chunk holds 1 to 32 lines |
| DvDisplay.ChunkWords | drivers/dv_display/dv_display.cpp:305-316 | a chunk's scanline words are one per line of the chunk |
| DvDisplay.OpsPerChunk | drivers/dv_display/dv_display.cpp:305-317 | each chunk is one write, preceded by a read back when the index is negative |
| DvDisplay.ScrollIdxOps | drivers/dv_display/dv_display.cpp:297-321 | set_scroll_idx_for_lines sends OpsPerChunk transfers per chunk and nothing else |
| DvDisplay.ScrollOpsUpTo | drivers/dv_display/dv_display.cpp:303-320 | the first n transfers of the loop are n long |
| DvDisplay.ScrollOpsUpToAt | drivers/dv_display/dv_display.cpp:303-320 | transfer k of any prefix of the loop is the loop's k-th transfer |
| DvDisplay.ScrollIdxOpsAt | drivers/dv_display/dv_display.cpp:303-320 | transfer k of set_scroll_idx_for_lines is that of chunk k / OpsPerChunk, read back or write |
| DvDisplay.ScrollIdxCoversLine | drivers/dv_display/dv_display.cpp:297-321 | every line y in [miny, maxy) gets its scanline word at table slot 7 + y, in the write of its chunk, with the format, scroll index, repeat and row address of line y (a negative index keeping the old index bits) |
| DvDisplay.ChunkCoversLine | drivers/dv_display/dv_display.cpp:303-319 | the same for a line given as slot j of chunk c |
| DvDisplay.ChunkWrite | drivers/dv_display/dv_display.cpp:317-319 | the last transfer of chunk c writes that chunk's words at slot 7 + miny + 32c |
| DvDisplay.ChunkWordAt | drivers/dv_display/dv_display.cpp:306-315 | word j of chunk c is the scanline word of line miny + 32c + j |
| DvDisplay.LineChunk | drivers/dv_display/dv_display.cpp:303-304 | line y falls in chunk (y - miny) / 32, slot (y - miny) % 32, whose write is a transfer of the loop |
| DvDisplay.ChunkSlotAddress | drivers/dv_display/dv_display.cpp:300-319 | the address of slot j of chunk c is that of table word 7 + y |
| DvDisplay.SpriteTableCoversSlot | drivers/dv_display/dv_display.cpp:723-738 | every one of the 1024 sprite slots gets its own table word at word i of the table, holding the format and the slot's data address |
| DvDisplay.ClearAllOps | drivers/dv_display/dv_display.cpp:594-596 | set_mode clears each of the 80 displayed sprites, sprite i by record {1, 0xFF, 0xFF} |
| DvDisplay.Rgb888Fill | drivers/dv_display/dv_display.cpp:465-469 | the fill of m groups is 3m words |
| DvDisplay.Rgb888Groups | drivers/dv_display/dv_display.cpp:465 | the first loop fills at most 20 groups, enough bytes for 80 pixels or len pixels, whichever is less |
| DvDisplay.NumRgb888Chunks | drivers/dv_display/dv_display.cpp:471 | the chunk loop's passes just cover 3 * len bytes in pieces of 240 |
| DvDisplay.Rgb888ChunkBytes | drivers/dv_display/dv_display.cpp:472 | each pass writes 1 to 240 bytes, never more than the value buffer holds |
| DvDisplay.Rgb888SpanOps | drivers/dv_display/dv_display.cpp:471-475 | one write per pass |
| DvDisplay.FillRgb888 | drivers/dv_display/dv_display.cpp:465-469 | the loop builds Rgb888Fill of Rgb888Groups(len) groups |
| DvDisplay.GroupsOf | drivers/dv_display/dv_display.cpp:465 | the loop's group count is ⌈n / 4⌉ |
| DvDisplay.Rgb888FillPattern | drivers/dv_display/dv_display.cpp:466-468 | the bytes of the fill repeat the colour's blue, green, red bytes (low byte first) |
| DvDisplay.Rgb888WordsAt | drivers/dv_display/dv_display.cpp:466-468 | the three words of one group hold bytes 0,1,2 of the colour four times over |
| DvDisplay.Rgb888SpanCovers | drivers/dv_display/dv_display.cpp:459-477 | write(RGB888) covers exactly 3 * len bytes from the address on, in passes of 240 consecutive bytes (the last one shorter), each byte being byte t % 3 of the colour |
| DvDisplay.SentinelReopensFullRun | drivers/dv_display/dv_display.cpp:533-539 | after a full run is flushed, a pixel on row -1 right after the run passes write_pixel's test as written and would store pixel 64 into word 32 of a 32-word buffer; the intended test rejects it |
| DvDisplay.AppendStaysInBuffer | drivers/dv_display/dv_display.cpp:533-536 | with the intended test, an appended pixel always lands in one of the 32 buffer words |
| DvDisplay.Put16High | drivers/dv_display/dv_display.cpp:534 | or-ing an odd pixel into the upper half keeps the lower half |
| DvDisplay.Put16Low | drivers/dv_display/dv_display.cpp:535 | an even pixel replaces the word, leaving the upper half clear |
| DvDisplay.Append16 | drivers/dv_display/dv_display.cpp:534-536 | storing pixel n as write_pixel does appends it to the run's pixels and keeps the free half clear |
| DvDisplay.HalvesKeepPrefix | drivers/dv_display/dv_display.cpp:534-535 | the store touches no earlier pixel |
| DvDisplay.InsertByteIsShift | drivers/dv_display/dv_display.cpp:665 | the modelled byte store is write_palette_pixel's or with a shift by (x & 3) << 3 |
| DvDisplay.Put8 | drivers/dv_display/dv_display.cpp:665-666 | storing byte k of a word sets that byte, keeps the ones below and leaves the ones above clear |
| DvDisplay.Append8 | drivers/dv_display/dv_display.cpp:665-667 | storing pixel n as write_palette_pixel does appends it to the run's bytes and keeps the rest of the word clear |
| DvDisplay.WordsLeKeepsPrefix | drivers/dv_display/dv_display.cpp:665-666 | the store touches no earlier byte |
| DvDisplay.SlotsStep | drivers/dv_display/dv_display.cpp:628-630 | each pass of set_palette's loop stores colour i in its own slot and leaves every other slot as it was |
| DvDisplay.EntryRoundTrip | drivers/dv_display/dv_display.cpp:636-638 | storing a colour as (R, G, B) bytes and reading the slot back gives the colour's low 24 bits |
| DvDisplay.Gpio29DirResult | drivers/dv_display/dv_display.cpp:327-341 | after set_gpio_29_dir the pin is an input exactly when input was asked for; an input keeps its pulls and writes nothing, and a new input has none |
| DvDisplay.Gpio29PullMode | drivers/dv_display/dv_display.cpp:347-365 | a pull change writes nothing exactly when the pin is not an input (mode above 3) |
| DvDisplay.Gpio29PullResult | drivers/dv_display/dv_display.cpp:352-363 | a pull change keeps the pin an input, sets its own bit as asked and keeps the other pull bit |
| DvDisplay.ModifyBitExact | drivers/dv_display/dv_display.cpp:380-385 | i2c_modify_bit changes exactly the bit it names; a bit number of 8 or more changes nothing in the 8-bit register |
| DvDisplay.ModifyBitHigh | drivers/dv_display/dv_display.cpp:382-383 | a bit number from 8 to 31 leaves the register as read |
| DvDisplay.ModifyBitLow | drivers/dv_display/dv_display.cpp:382-383 | a bit number below 8 sets or clears that bit and keeps the others |
| DvDisplay.ScrollOpsStep | drivers/dv_display/dv_display.cpp:303-320 | the transfers of the first c + 1 chunks are those of the first c, then chunk c's read back (negative index only) and its write |
| DvDisplay.BuildChunk | drivers/dv_display/dv_display.cpp:305-316 | the inner loops build ChunkWords for the chunk starting at line i |
| DvDisplay.BuildSpriteTableChunk | drivers/dv_display/dv_display.cpp:731-733 | the inner loop builds the 32 table words of slots i to i + 31 |
| DvDisplay.DefineOpsShape | drivers/dv_display/dv_display.cpp:786-804 | define_sprite_internal's transfers are the header write followed by the row writes |
| DvDisplay.ChooseTiming | drivers/dv_display/dv_display.cpp:107-156 | init's choice of repeats and resolution: HRepeatFor, then a refusal of RGB888 before the vertical repeat is set, then InitResolution |
| DvDisplay.WriteIfSome | drivers/dv_display/dv_display.cpp:338-354 | a mode byte is written exactly when there is one |
| DvDisplay.SplitWriteCovers | drivers/dv_display/dv_display.cpp:565-577 | the transfers of a split span write hold exactly the span's bytes, in order, each at its own address; there are none exactly for an empty span |
| DvDisplay.PaletteSpanHead | drivers/dv_display/dv_display.cpp:690-695 | the head written on its own is shorter than 4 bytes and no longer than the span |
| DvDisplay.PaletteSpanUnderflow | drivers/dv_display/dv_display.cpp:690-700 | a one-byte span one byte past a word boundary leaves a count of 0xFFFFFFFE for the second transfer |
| DvDisplay.PaletteSpanSharesOut | drivers/dv_display/dv_display.cpp:693-699 | with the head cut short by l, the head and the rest share out exactly the l bytes; from 4 bytes up the source's count agrees |
| DvDisplay.Span16Underflow | drivers/dv_display/dv_display.cpp:571-575 | an empty span from a misaligned buffer leaves a count of 0xFFFFFFFF pixels, 0xFFFFFFFE bytes |
| DvDisplay.Span16Head | drivers/dv_display/dv_display.cpp:568-573 | the pixels written on their own are at most one and never more than the span |
| DvDisplay.Extents | drivers/dv_display/dv_display.cpp:570-575 | the address and length of each RAM write of a transfer list |
| DvDisplay.PaletteSpanExtentsAgree | drivers/dv_display/dv_display.cpp:686-701 | the transfers of write_palette_pixel_span as written are those of the correct split write exactly when the head is not cut short by l |
| DvDisplay.Span16ExtentsAgree | drivers/dv_display/dv_display.cpp:565-577 | the transfers of write_pixel_span (16-bit data) as written are the correct split write except for an empty span from a misaligned buffer, which writes one pixel and then 0xFFFFFFFE bytes |
| DvDisplay.PixelRun.Push16 | drivers/dv_display/dv_display.cpp:534-536 | the append branch adds the pixel to the run's pixels and keeps the buffer invariant while the run is not full |
| DvDisplay.PixelRun.Push8 | drivers/dv_display/dv_display.cpp:665-667 | the same for a palette byte |
| DvDisplay.PixelRun.Start16 | drivers/dv_display/dv_display.cpp:545-547 | a new run holds the one pixel, at the given point |
| DvDisplay.PixelRun.Start8 | drivers/dv_display/dv_display.cpp:676-678 | a new palette run holds the one byte, at the given point |
| DvDisplay.DVDisplay.constructor | drivers/dv_display/dv_display.hpp:108-127 | a fresh driver has no sizes, bank 0, repeats 1, RGB555, and no pending run (location (-1, -1)) |
| DvDisplay.DVDisplay.WriteHeaderPreamble | drivers/dv_display/dv_display.cpp:708-721 | the seven preamble words are written at address 0 |
| DvDisplay.DVDisplay.SetScrollIdxForLines | drivers/dv_display/dv_display.cpp:297-321 | the loop sends exactly ScrollIdxOps, whose line coverage ScrollIdxCoversLine states |
| DvDisplay.DVDisplay.WriteSpriteTable | drivers/dv_display/dv_display.cpp:723-738 | the loop sends exactly the 32 table writes, whose coverage SpriteTableCoversSlot states |
| DvDisplay.DVDisplay.WriteHeader | drivers/dv_display/dv_display.cpp:740-745 | preamble, scanline words with index 0, then the sprite table |
| DvDisplay.DVDisplay.ClearSprite | drivers/dv_display/dv_display.cpp:841-847 | a sprite number below 80 gets {1, 0xFF, 0xFF}; others send nothing |
| DvDisplay.DVDisplay.SetSprite | drivers/dv_display/dv_display.cpp:825-839 | a sprite number below 80 gets its 7-byte record; others send nothing |
| DvDisplay.DVDisplay.DefineSprite | drivers/dv_display/dv_display.cpp:808-811 | define_sprite writes the ARGB1555 header and rows of the trimmed height |
| DvDisplay.DVDisplay.DefinePaletteSprite | drivers/dv_display/dv_display.cpp:813-816 | define_palette_sprite writes the one-byte header and rows of the trimmed height |
| DvDisplay.DVDisplay.SetupScrollGroup | drivers/dv_display/dv_display.cpp:260-295 | an index outside 1..7 sends nothing; otherwise the 13-byte configuration goes to register 0xE0 + idx |
| DvDisplay.DVDisplay.SetMode | drivers/dv_display/dv_display.cpp:584-601 | RGB888 without doubling changes nothing; otherwise mode is set, change_mode is 1, palette mode sets rewrite_palette to 2, and the tables and sprite clears are sent |
| DvDisplay.DVDisplay.WriteModeTables | drivers/dv_display/dv_display.cpp:592-596 | scanline words, sprite table, then the 80 clears |
| DvDisplay.DVDisplay.ClearDisplayedSprites | drivers/dv_display/dv_display.cpp:594-596 | the loop clears all 80 displayed sprites in order |
| DvDisplay.DVDisplay.Init | drivers/dv_display/dv_display.cpp:94-197 | init stores the sizes and repeats, returns true exactly when the size is in the resolution table, changes nothing else when it returns false, and otherwise sends both headers, the resolution, the start, and set_mode |
| DvDisplay.DVDisplay.Configure | drivers/dv_display/dv_display.cpp:94-156 | the part of init that touches no hardware: sizes, repeats and the resolution it will ask for |
| DvDisplay.DVDisplay.SetGeometry | drivers/dv_display/dv_display.cpp:95-107 | display and frame sizes, and bank 0 |
| DvDisplay.DVDisplay.StartGpu | drivers/dv_display/dv_display.cpp:158-184 | headers, resolution, start register, then set_mode, in that order |
| DvDisplay.DVDisplay.WriteHeadersAndStart | drivers/dv_display/dv_display.cpp:158-181 | both headers, then the resolution and start registers |
| DvDisplay.DVDisplay.WriteResolution | drivers/dv_display/dv_display.cpp:176-181 | the resolution byte (bit 7 for maximum compatibility), then 1 to the start register |
| DvDisplay.DVDisplay.WriteBothHeaders | drivers/dv_display/dv_display.cpp:158-171 | bank 0 selected and its header written, then bank 1, then bank 0 selected again |
| DvDisplay.DVDisplay.SelectAndWriteHeader | drivers/dv_display/dv_display.cpp:158-167 | one bank selected, then its header |
| DvDisplay.DVDisplay.WritePixel | drivers/dv_display/dv_display.cpp:531-548 | a pixel right after the pending run is appended, and a run reaching 64 pixels is written out (128 bytes) and closed; any other pixel writes out the pending run, if any, and starts a new run of one |
| DvDisplay.DVDisplay.WritePalettePixel | drivers/dv_display/dv_display.cpp:662-679 | the same coalescing for palette bytes, with runs of up to 128 bytes |
| DvDisplay.DVDisplay.WritePixelSpan16 | drivers/dv_display/dv_display.cpp:452-457 | one repeated-word write of 2l bytes of the colour doubled into a word |
| DvDisplay.DVDisplay.WritePaletteSpan | drivers/dv_display/dv_display.cpp:497-503 | one repeated-word write of l bytes of the colour repeated four times in a word |
| DvDisplay.DVDisplay.WritePixel24 | drivers/dv_display/dv_display.cpp:555-558 | the colour's three low bytes at the pixel's address |
| DvDisplay.DVDisplay.WriteRgb888 | drivers/dv_display/dv_display.cpp:459-477 | the two loops send exactly Rgb888SpanOps, whose coverage Rgb888SpanCovers states |
| DvDisplay.DVDisplay.WriteRgb888Chunks | drivers/dv_display/dv_display.cpp:471-475 | the chunk loop sends Rgb888SpanOps |
| DvDisplay.DVDisplay.WritePixelSpan24 | drivers/dv_display/dv_display.cpp:560-563 | write(RGB888) at the pixel's address |
| DvDisplay.DVDisplay.WritePixelSpan16Data | drivers/dv_display/dv_display.cpp:565-577 | the split write of the l pixels: the misaligned first pixel on its own (only when there is one), then the rest |
| DvDisplay.DVDisplay.WritePaletteSpanData | drivers/dv_display/dv_display.cpp:686-701 | the split write of the l bytes with the head cut short by l |
| DvDisplay.DVDisplay.WritePixelSpan24Data | drivers/dv_display/dv_display.cpp:603-619 | the split write of 3 * len bytes, with a head of 4 - align bytes when the buffer is misaligned and the span is not empty |
| DvDisplay.DVDisplay.SetGpio29Dir | drivers/dv_display/dv_display.cpp:327-341 | reads the mode register, then writes the mode Gpio29DirMode chooses, if any |
| DvDisplay.DVDisplay.SetGpio29Value | drivers/dv_display/dv_display.cpp:343-345 | writes the PWM value to the GPIO29 output register |
| DvDisplay.DVDisplay.SetGpio29 | drivers/dv_display/dv_display.hpp:247 | writes 255 or 0 |
| DvDisplay.DVDisplay.SetGpio29Pull | drivers/dv_display/dv_display.cpp:347-365 | reads the mode register, then writes the changed pull only for an input |
| DvDisplay.DVDisplay.I2cModifyBit | drivers/dv_display/dv_display.cpp:380-385 | reads the register and writes it back with exactly the named bit changed |
| DvDisplay.DVDisplay.SetGpioHiBit | drivers/dv_display/dv_display.cpp:387-413 | the one-pin Hi GPIO setters are i2c_modify_bit on their register |
| DvDisplay.DVDisplay.SetGpioHiAll | drivers/dv_display/dv_display.cpp:391-417 | the _all setters write the whole register |
| DvDisplay.DVDisplay.SetPaletteColourIn | drivers/dv_display/dv_display.cpp:633-640 | the entry's R, G, B bytes land at (palette_idx * 32 + entry) * 3, nothing else in the store changes, the slot reads back as the colour's low 24 bits, and rewrite_palette is 2 |
| DvDisplay.DVDisplay.SetPaletteColour | drivers/dv_display/dv_display.cpp:647-650 | the same on the current local palette |
| DvDisplay.DVDisplay.SetPaletteIn | drivers/dv_display/dv_display.cpp:626-631 | all 32 entries of the palette hold the new colours and the other palette is unchanged |
| DvDisplay.DVDisplay.SetPalette | drivers/dv_display/dv_display.cpp:642-645 | the same on the current local palette |
| DvDisplay.DVDisplay.SetLocalPaletteIndex | drivers/dv_display/dv_display.cpp:444-446 | stores the index later palette calls use |
| DvSprite.IsTransparent8 | drivers/dv_display/dv_display.cpp:30-33 | a palette sprite pixel is transparent exactly when bit 0 is clear |
| DvSprite.IsTransparent16 | drivers/dv_display/dv_display.cpp:35-38 | an ARGB1555 pixel is transparent exactly when bit 15 is clear |
| DvSprite.Leading | drivers/dv_display/dv_display.cpp:47-48 | the count of leading transparent pixels is at most the row's length |
| DvSprite.SpanEnd | drivers/dv_display/dv_display.cpp:51-52 | one past the last opaque pixel is at most the row's length |
| DvSprite.LeadingFacts | drivers/dv_display/dv_display.cpp:47-48 | the pixels before Leading are transparent and the one at Leading, if any, is opaque |
| DvSprite.SpanEndFacts | drivers/dv_display/dv_display.cpp:51-52 | the pixels from SpanEnd on are transparent and the one before it, if any, is opaque |
| DvSprite.SpanCharacterised | drivers/dv_display/dv_display.cpp:41-55 | offset counts the leading transparent pixels; both ends of a non-empty span are opaque; every opaque pixel lies in [offset, offset + length); length is 0 exactly when the row is all transparent |
| DvSprite.LeadingSnoc | drivers/dv_display/dv_display.cpp:47-48 | one more pixel extends the leading count only when every pixel so far and the new one are transparent |
| DvSprite.SpanEndSnoc | drivers/dv_display/dv_display.cpp:49-53 | one more opaque pixel moves the span's end to it; a transparent one leaves it |
| DvSprite.GetSpriteLimits | drivers/dv_display/dv_display.cpp:41-55 | the loop computes offset == Leading and length == SpanLength, both below 256 |
| DvSprite.TrimmedHeight | drivers/dv_display/dv_display.cpp:773 | the trimmed height is at most the height |
| DvSprite.TrimmedHeightFacts | drivers/dv_display/dv_display.cpp:773 | trimming keeps at least one row, drops only rows of length 0, and stops at a row of non-zero length |
| DvSprite.BytesPerPixel | drivers/dv_display/dv_display.cpp:808-816 | 2 bytes per ARGB1555 pixel, 1 per palette pixel |
| DvSprite.RowSpanBounds | drivers/dv_display/dv_display.cpp:756-768 | each row's span lies within the sprite's width |
| DvSprite.RowLengths | drivers/dv_display/dv_display.cpp:752-768 | one length per row |
| DvSprite.PixelBytes | drivers/dv_display/dv_display.cpp:793-801 | count pixels take count * BytesPerPixel bytes |
| DvSprite.SpriteHeader | drivers/dv_display/dv_display.cpp:779-784 | the header has one halfword per kept row after the size halfword |
| DvSprite.RowBytesBeforeStep | drivers/dv_display/dv_display.cpp:803 | the address advances by each row's length times its bytes per pixel |
| DvSprite.RowStart | drivers/dv_display/dv_display.cpp:793 | row i's data starts at pixel width * i + offset and its span stays inside the data |
| DvSprite.RowWrites | drivers/dv_display/dv_display.cpp:791-804 | the loop's i-th write is row i's write |
| DvSprite.RowWritesStep | drivers/dv_display/dv_display.cpp:791-804 | one more pass of the row loop appends row n's write |
| DvSprite.RowStep | drivers/dv_display/dv_display.cpp:793-803 | one pass writes row i's bytes at its address, and the next row starts right after them |
| DvSprite.DefineSpriteInternal | drivers/dv_display/dv_display.cpp:747-806 | the trimmed height, then exactly rows + 1 writes: the header at the start of slot idx, then the kept span of each row |
| DvSprite.ScanRows | drivers/dv_display/dv_display.cpp:754-769 | the first loop records every row's offset and length |
| DvSprite.HeaderFor | drivers/dv_display/dv_display.cpp:779-784 | the header loop builds SpriteHeader |
| DvSprite.WriteRows | drivers/dv_display/dv_display.cpp:785-804 | the row loop, starting at the padded data address, sends RowWrites |
| DvSprite.SpriteHeaderDecodes | drivers/dv_display/dv_display.cpp:779-783 | the header reads back as height and width, then each kept row's length and offset: the packing loses nothing |
| DvSprite.DataStartAligned | drivers/dv_display/dv_display.cpp:777-789 | the row data begins on a 4-byte boundary, right after the header or 2 bytes past it |
| DvSprite.RowWritesContiguous | drivers/dv_display/dv_display.cpp:803 | each row's data follows the previous row's without a gap |
| DvSprite.RowBytesBeforeBound | drivers/dv_display/dv_display.cpp:803 | the rows before i take at most i rows of full width |
| DvSprite.SpriteFitsSlot | drivers/dv_display/dv_display.hpp:191-199 | a sprite within the documented limits (2 KB of pixels, 64 rows) fits header, padding and data in its 0x900-byte slot |
| DvSprite.TrimDropsOnlyEmptyRows | drivers/dv_display/dv_display.cpp:771-773 | every row trimming drops is fully transparent, and at least one row is kept |
| DvSprite.EmptySpanRow | drivers/dv_display/dv_display.cpp:41-55 | a row whose span is empty is fully transparent |
| DvSprite.DocumentedSizesOverflowRowArrays | drivers/dv_display/dv_display.cpp:751-752 | the documented 16x64 and 45x45 sprites have more rows than the 32-entry offsets and lengths arrays hold |
| DvSprite.DocumentedSizesFitCorrected | drivers/dv_display/dv_display.hpp:193-199 | with 64-entry arrays every documented size fits, and its header fits the 33-word buffer |
| DvRecords.SpriteRecord | drivers/dv_display/dv_display.cpp:828-835 | the set_sprite record is 7 bytes |
| DvRecords.SpriteRecordDecodes | drivers/dv_display/dv_display.cpp:825-839 | the record reads back as the blend code (low 3 bits), the scale minus one (for scales 1 to 32), the data index, and x and y as 16-bit values, each low byte first |
| DvRecords.ModeByte | drivers/dv_display/dv_display.cpp:829 | byte 0 holds the blend code in bits 0-2 and, for scales 1 to 32, the scale minus one above them |
| DvRecords.SpriteRecordPlace | drivers/dv_display/dv_display.cpp:830-835 | bytes 1-6 read back as the data index, x and y, low byte first |
| DvRecords.Field16 | drivers/dv_display/dv_display.cpp:830-835 | a value split into `& 0xff` and `>> 8` reads back modulo 2^16 |
| DvRecords.Le16Value | drivers/dv_display/dv_display.cpp:830-835 | a two-byte field reads back as its value modulo 2^16, exactly for values below 2^16 |
| DvRecords.SpriteRecordByte0 | drivers/dv_display/dv_display.cpp:829 | the or of the blend code and the shifted scale keeps both fields |
| DvRecords.ClearRecordNamesNoSlot | drivers/dv_display/dv_display.cpp:844 | the clear record's data index 0xFFFF names no sprite slot |
| DvRecords.LeBytesLowBits | drivers/dv_display/dv_display.cpp:265-292 | only the low bits of a value reach its bytes, so the int16_t and int32_t truncations of the scroll fields do not change what is sent |
| DvRecords.ScrollConfig | drivers/dv_display/dv_display.cpp:279-292 | the scroll configuration is 13 bytes |
| DvRecords.ScrollConfigDecodes | drivers/dv_display/dv_display.cpp:279-292 | the record reads back as the scroll offset, the wrap address and the wrapped offset in 3 bytes each, and the wrap position and offset in 2 bytes each, low byte first |
| DvRecords.ScrollGroup | drivers/dv_display/dv_display.cpp:260-295 | setup_scroll_group sends nothing exactly when idx is outside 1..7; otherwise 13 bytes to register 0xE0 + idx |
| DvRecords.ScrollFieldsMeaning | drivers/dv_display/dv_display.cpp:265-277 | the scroll offset is the byte offset of the group's top left pixel in the frame; without a wrap the wrap fields are 0; a horizontal wrap lies strictly inside the displayed line |
| DvRecords.MulStrict | drivers/dv_display/dv_display.cpp:268 | a wrap strictly inside the line stays strictly inside when scaled by the pixel size |
| DvRecords.ScrollGroupRecord | drivers/dv_display/dv_display.cpp:279-294 | a group without wraps sends its scroll offset, then zeros |
| DvRecords.LineAddress | drivers/dv_display/dv_display.cpp:307-314 | a line's frame address is kept to 32 bits |
| DvRecords.PackScanline | drivers/dv_display/dv_display.cpp:301-307 | the format, index, repeat and address of a scanline word occupy disjoint bits |
| DvRecords.PackScanlineKeep | drivers/dv_display/dv_display.cpp:313-314 | with a negative index the old index bits are kept and the other fields replaced |
| DvRecords.ScanlineWordDecodes | drivers/dv_display/dv_display.cpp:301-315 | a scanline word reads back as its scroll index (or the previous one for a negative index), format, pixel doubling and line address |
| DvRecords.ScanlineWordIndexed | drivers/dv_display/dv_display.cpp:305-308 | the same for a non-negative index |
| DvRecords.ScanlineWordKeeps | drivers/dv_display/dv_display.cpp:310-315 | the same for a negative index |
| DvRecords.ModeBits | drivers/dv_display/dv_display.cpp:301 | the format code fits its 2-bit field |
| DvRecords.IndexBits | drivers/dv_display/dv_display.cpp:302 | a scroll index below 8 fits its 3-bit field |
| DvRecords.SpriteTableWord | drivers/dv_display/dv_display.cpp:729-732 | a sprite table word fits 32 bits |
| DvRecords.SpriteTableWordDecodes | drivers/dv_display/dv_display.cpp:729-732 | a sprite table word reads back as the format code and slot i's address |
| DvRecords.SpriteTableOps | drivers/dv_display/dv_display.cpp:730-737 | write_sprite_table makes 32 writes |
| DvRecords.SpriteTableChunk | drivers/dv_display/dv_display.cpp:731-733 | each write holds 32 words |
| DvRecords.PreambleWords | drivers/dv_display/dv_display.cpp:710-718 | the preamble is seven words |
| DvRecords.PreambleMagic | drivers/dv_display/dv_display.cpp:712 | the preamble starts with the bytes "PICO" |
| DvRecords.Fill16Bytes | drivers/dv_display/dv_display.cpp:454 | the fill word holds the colour's low and high bytes twice |
| DvRecords.Fill16Pattern | drivers/dv_display/dv_display.cpp:452-457 | a 16-bit fill writes the colour low byte first, twice per word |
| DvRecords.Fill8Bytes | drivers/dv_display/dv_display.cpp:499-500 | every byte of the palette fill word is the colour |
| DvRecords.Fill8Pattern | drivers/dv_display/dv_display.cpp:497-503 | a palette fill writes the colour into every byte |
| DvRecords.Rgb888Words | drivers/dv_display/dv_display.cpp:466-468 | one group is three words |
| DvRecords.Rgb888WordBytes | drivers/dv_display/dv_display.cpp:466-468 | byte k of the three words is byte k mod 3 of the colour |
| DvRecords.Rgb888WordLe | drivers/dv_display/dv_display.cpp:466-468 | each word's image, low byte first |
| DvRecords.Rgb888WordsPattern | drivers/dv_display/dv_display.cpp:465-469 | the three words are four copies of the colour's three bytes, low byte first |
| Aps6404.SignedLen | drivers/aps6404/aps6404_perf_critical.cpp:11 | the length the write loops use is len_in_bytes itself below 2^31; a larger value turns negative in the int and writes nothing |
| Aps6404.SplitLen | drivers/aps6404/aps6404_perf_critical.cpp:28-29 | the bytes pushed on their own after a page-crossing DMA are 1 to 3, the rest of the word the DMA stopped in unless the range ends first |
| Aps6404.ChunkWritesTile | drivers/aps6404/aps6404_perf_critical.cpp:44-56 | the chunking loop covers [addr, addr + len) in order with non-empty transfers, the first at most the first length and every other at most a page |
| Aps6404.ChunkWritesInPages | drivers/aps6404/aps6404_perf_critical.cpp:44-56 | started with the room left in the page, no chunk of the chunking loop crosses a page boundary |
| Aps6404.ChunkWritesInPlace | drivers/aps6404/aps6404_perf_critical.cpp:44-56 | with whole-word chunks each transfer takes its bytes from their own place in the caller's buffer |
| Aps6404.CrossingWritesTile | drivers/aps6404/aps6404_perf_critical.cpp:14-41 | the page-crossing loop of write_no_page_crossing covers the range in order |
| Aps6404.RoundInPages | drivers/aps6404/aps6404_perf_critical.cpp:15-40 | one round of the crossing loop fills the rest of the page and then starts the next page with the split word's remaining bytes |
| Aps6404.CrossingWritesInPages | drivers/aps6404/aps6404_perf_critical.cpp:14-41 | the crossing loop, entered with the room left in the first page, never lets a transfer cross a page |
| Aps6404.CrossingWritesInPlace | drivers/aps6404/aps6404_perf_critical.cpp:23-39 | the crossing loop takes every byte from its place in the buffer, including the shifted split word |
| Aps6404.NoCrossingWritesCover | drivers/aps6404/aps6404_perf_critical.cpp:10-57 | write_no_page_crossing writes exactly [addr, addr + len) in order, never across a page, at most a page per transfer, every byte from its own place in the buffer |
| Aps6404.SmashingWritesCover | drivers/aps6404/aps6404_perf_critical.cpp:72-84 | write with page smashing allowed writes exactly [addr, addr + len) in order, at most a page per transfer, every byte from its place in the buffer |
| Aps6404.RotateBy1 | drivers/aps6404/aps6404_perf_critical.cpp:111 | rotating right by 8 bits moves byte k + 1 to byte k |
| Aps6404.RotateBy2 | drivers/aps6404/aps6404_perf_critical.cpp:111 | rotating right by 16 bits moves byte k + 2 to byte k |
| Aps6404.RotateBy3 | drivers/aps6404/aps6404_perf_critical.cpp:111 | rotating right by 24 bits moves byte k + 3 to byte k |
| Aps6404.RotateBytesAt | drivers/aps6404/aps6404_perf_critical.cpp:109-111 | byte k of the word rotated by b bytes is byte (k + b) mod 4 of the original |
| Aps6404.FirstPageLen | drivers/aps6404/aps6404_perf_critical.cpp:94-97 | the room write_repeat allows in the first page is a whole page when smashing is allowed and otherwise ends exactly at the next page boundary |
| Aps6404.InPhaseByte | drivers/aps6404/aps6404_perf_critical.cpp:111-127 | a repeated-word write in phase puts byte (t mod 4) of the original word at address addr0 + t |
| Aps6404.RepeatChunksTile | drivers/aps6404/aps6404_perf_critical.cpp:115-128 | the repeat loop covers the range in order with non-empty chunks, the first at most the first length and the rest at most a page |
| Aps6404.RepeatChunksInPhase | drivers/aps6404/aps6404_perf_critical.cpp:115-128 | with whole-word chunks the repeated word stays in phase with the pattern |
| Aps6404.RepeatChunksInPages | drivers/aps6404/aps6404_perf_critical.cpp:115-128 | started with the room left in the page, no repeat chunk crosses a page |
| Aps6404.RepeatSplitTile | drivers/aps6404/aps6404_perf_critical.cpp:97-128 | when the first page ends inside a word, its rest written alone and then page chunks cover the range without crossing pages |
| Aps6404.RepeatSplitPhase | drivers/aps6404/aps6404_perf_critical.cpp:107-111 | after the split the rotated word continues the pattern in step |
| Aps6404.RepeatWritesCover | drivers/aps6404/aps6404_perf_critical.cpp:87-129 | write_repeat fills exactly [addr, addr + len) in order with non-empty writes of at most a page, byte t being byte (t mod 4) of the word, never crossing a page unless smashing is allowed |
| Aps6404.CommandWordOfChipAddress | drivers/aps6404/aps6404_perf_critical.cpp:141 | for every address of the 8 MiB chip the read command word is 0xEB followed by the address |
| Aps6404.ReadTriple | drivers/aps6404/aps6404_perf_critical.cpp:187-196 | a chunk shorter than two bytes gets count 0 and the single-read entry point; any other gets count len * 2 - 4 and the read entry point; the middle word is the command word |
| Aps6404.ReadTriples | drivers/aps6404/aps6404_perf_critical.cpp:186-204 | the command list holds three words per chunk |
| Aps6404.ReadTriplesAt | drivers/aps6404/aps6404_perf_critical.cpp:186-204 | triple i of the command list is the one for chunk i |
| Aps6404.StoredHead | drivers/aps6404/aps6404_perf_critical.cpp:186-196 | every round of the loop stores a whole triple |
| Aps6404.StoredStep | drivers/aps6404/aps6404_perf_critical.cpp:197-203 | a round that leaves bytes over is followed by rounds of at most a page from the next address |
| Aps6404.StoredLast | drivers/aps6404/aps6404_perf_critical.cpp:200 | the round that uses up the length is the last |
| Aps6404.StoredCmdsAreTriples | drivers/aps6404/aps6404_perf_critical.cpp:181-207 | the commands stored by the loop are the triples of the read's chunks |
| Aps6404.ReadChunksCover | drivers/aps6404/aps6404_perf_critical.cpp:182-204 | the read chunks cover the range in order, there is at least one (a read of nothing is one empty chunk), the first fits the room allowed in the first page and every other is at most a page |
| Aps6404.ReadChunksInPages | drivers/aps6404/aps6404_perf_critical.cpp:183-204 | started with the room left in the page, no read chunk crosses a page |
| Aps6404.ReadDirectMatchesCommands | drivers/aps6404/aps6404_perf_critical.cpp:139-143 | a read that fits the first page sends the same triple a one-chunk command list would hold |
| Aps6404.ReadCmdsCover | drivers/aps6404/aps6404_perf_critical.cpp:181-207 | add_read_to_cmd_buffer's commands come from chunks that tile the read, the first within the first page's room, none longer than a page and none crossing a page unless smashing is allowed |
| Aps6404.MultiReadCmds | drivers/aps6404/aps6404_perf_critical.cpp:153-156 | multi_read's command list holds at least a triple per read |
| Aps6404.MultiReadCmdsPrefix | drivers/aps6404/aps6404_perf_critical.cpp:153-156 | the commands of the first k reads are a prefix of the whole list |
| Aps6404.CrossingStep | drivers/aps6404/aps6404_perf_critical.cpp:15-40 | one round of the crossing loop sends the rest of the page and the split word and leaves the room of a page less the split bytes, not a whole number of words |
| Aps6404.CrossingExit | drivers/aps6404/aps6404_perf_critical.cpp:44 | once the range ends in the current page the chunking loop sends the rest |
| Aps6404.ChunkStep | drivers/aps6404/aps6404_perf_critical.cpp:44-56 | one round of the chunking loop sends min(first, len) bytes and continues a page at a time |
| Aps6404.RepeatPlanSplit | drivers/aps6404/aps6404_perf_critical.cpp:97-112 | when write_repeat splits the first page it sends the page's rest with the unrotated word and then page chunks with the rotated word |
| Aps6404.RepeatPlanWhole | drivers/aps6404/aps6404_perf_critical.cpp:94-96 | without a split write_repeat is the plain repeat loop from the first page's room |
| Aps6404.ReadStep | drivers/aps6404/aps6404_perf_critical.cpp:186-204 | one round of add_read_to_cmd_buffer's loop stores the chunk's triple before the rest |
| Aps6404.MultiReadStep | drivers/aps6404/aps6404_perf_critical.cpp:153-156 | one more read appends its commands and adds its length to the total |
| Aps6404.TotalStep | drivers/aps6404/aps6404_perf_critical.cpp:151-154 | the uint32_t running total is the 32-bit sum of the lengths so far |
| Aps6404.APS6404.constructor | drivers/aps6404/aps6404.cpp:165-168 | the driver as adjust_clock leaves it: the page-smashing choice fixed by the clock, nothing sent yet and the DMA channel not marked as set up for writing |
| Aps6404.APS6404.CrossPages | drivers/aps6404/aps6404_perf_critical.cpp:14-41 | the crossing loop's transfers followed by the chunks from where it stops are the whole crossing plan |
| Aps6404.APS6404.SendChunks | drivers/aps6404/aps6404_perf_critical.cpp:44-56 | the chunking loop appends exactly the chunk plan to the bus log |
| Aps6404.APS6404.WriteNoPageCrossing | drivers/aps6404/aps6404_perf_critical.cpp:10-57 | write_no_page_crossing appends exactly the no-crossing plan to the bus log |
| Aps6404.APS6404.Write | drivers/aps6404/aps6404_perf_critical.cpp:59-85 | write sets the DMA channel up for writing unless the last command was a write, then appends the page-chunk or no-crossing plan, and leaves the channel marked as writing |
| Aps6404.APS6404.SendRepeatChunks | drivers/aps6404/aps6404_perf_critical.cpp:115-128 | the repeat loop appends exactly the repeat chunk plan to the bus log |
| Aps6404.APS6404.RepeatFirstPage | drivers/aps6404/aps6404_perf_critical.cpp:94-113 | the first-page step and the chunks from where it stops make up write_repeat's whole plan |
| Aps6404.APS6404.WriteRepeat | drivers/aps6404/aps6404_perf_critical.cpp:87-129 | write_repeat sets the channel up for writing unless it already was, then appends exactly the repeat plan |
| Aps6404.APS6404.PutChunk | drivers/aps6404/aps6404_perf_critical.cpp:187-196 | one round stores the chunk's triple after those already stored and leaves the rest of the buffer alone |
| Aps6404.APS6404.StoreChunks | drivers/aps6404/aps6404_perf_critical.cpp:186-204 | the loop stores exactly the command words of the read from the given position and changes nothing else in the buffer |
| Aps6404.APS6404.AddReadToCmdBuffer | drivers/aps6404/aps6404_perf_critical.cpp:181-207 | add_read_to_cmd_buffer stores the read's command triples from the given position, returns the position after them and leaves the rest of the buffer as it was |
| Aps6404.APS6404.Read | drivers/aps6404/aps6404_perf_critical.cpp:131-148 | read arms the read DMA channel and, when the read fits the first page, sends its single triple directly; otherwise it stores the command list in the buffer and has the command channel send it |
| Aps6404.APS6404.MultiRead | drivers/aps6404/aps6404_perf_critical.cpp:150-161 | multi_read stores every read's commands in turn, arms the read channel for the 32-bit total length chained as asked and sends the whole list |
| Aps6404.APS6404.StoreReads | drivers/aps6404/aps6404_perf_critical.cpp:151-156 | multi_read's loop leaves exactly the commands of every read at the start of the buffer and the 32-bit total of the lengths |
| Aps6404.APS6404.StoreRead | drivers/aps6404/aps6404_perf_critical.cpp:155 | one turn of the loop stores read i's commands after those of the reads before it |
| Aps6404.APS6404.StartRead | drivers/aps6404/aps6404_perf_critical.cpp:163-179 | start_read arms the read channel for the total length and clears the writing flag |
| PicoGraphicsDv.BufferSizeRgb555 | libraries/pico_graphics/pico_graphics_dv.hpp:17-19 | the RGB555 buffer size is w * h * 2 bytes whenever that fits the 32-bit size_t, and always a 32-bit value |
| PicoGraphicsDv.BufferSizeRgb888 | libraries/pico_graphics/pico_graphics_dv.hpp:35-37 | the RGB888 buffer size is w * h * 4 bytes whenever that fits the 32-bit size_t, and always a 32-bit value |
| PicoGraphicsDv.BufferSizeP5 | libraries/pico_graphics/pico_graphics_dv.hpp:68-70 | the P5 buffer size is one byte per pixel whenever w * h fits the 32-bit size_t |
| PicoGraphicsDv.P5PaletteIsDisplayPalette | libraries/pico_graphics/pico_graphics_dv.hpp:42 | the pen's palette of 32 entries is exactly one of the display's palettes |
| PicoGraphicsDv.PixelInsideBuffer | libraries/pico_graphics/pico_graphics_dv.hpp:17-19 | pixel (x, y) of a w by h image laid out row by row lies inside a buffer of w * h pixels |
| PicoGraphicsDv.BuffersHoldEveryPixel | libraries/pico_graphics/pico_graphics_dv.hpp:17-70 | when the sizes do not wrap, each of the three pens' buffers holds every pixel of the image |
| PicoGraphicsDv.AlphaMax | libraries/pico_graphics/pico_graphics_pen_dv_rgb555.cpp:64 | a tile is rendered with 16 alpha levels when alpha_type is 2 and with 4 otherwise |
| PicoGraphicsDv.AlphaMap | libraries/pico_graphics/pico_graphics_pen_dv_rgb555.cpp:61-63 | the blend weight of a sample is below 16, zero exactly for a zero sample, and the sample itself for 16 levels |
| PicoGraphicsDv.AlphaIndexInRange | libraries/pico_graphics/pico_graphics_pen_dv_rgb555.cpp:68-103 | when the alpha buffer holds the bounds' samples, every sample index of the bounds lies inside it |
| PenP5.Rgb888Channels | libraries/pico_graphics/pico_graphics_pen_dv_p5.cpp:5-7 | RGB_to_RGB888 puts R, G and B in bits 16-23, 8-15 and 0-7, from which each comes back out, and leaves the top byte clear |
| PenP5.RampEntryIsGrey | libraries/pico_graphics/pico_graphics_pen_dv_p5.cpp:14-17 | for levels below 32 the constructor's shifted entry is the grey 8 * n |
| PenP5.RampEntryOfLevel32 | libraries/pico_graphics/pico_graphics_pen_dv_p5.cpp:16-17 | level 32, stored for entry 0 of palette 1, carries into the next channel and gives R = 1, G = 1, B = 0 instead of a grey |
| PenP5.PixelByte | libraries/pico_graphics/pico_graphics_pen_dv_p5.cpp:72 | the pixel byte holds the colour index in bits 2-6 and the depth in bit 0, with bits 1 and 7 clear |
| PenP5.CacheKey | libraries/pico_graphics/pico_graphics_pen_dv_p5.cpp:114 | the dither cache key is below 512 and holds the top three bits of R, G and B, R highest |
| PenP5.PatternIndex | libraries/pico_graphics/pico_graphics_pen_dv_p5.cpp:117 | the dither pattern position is below 16, its column x mod 4 and its row y mod 4 of the two's-complement coordinates |
| PenP5.RampCalls | libraries/pico_graphics/pico_graphics_pen_dv_p5.cpp:13-19 | the constructor makes two palette calls per entry |
| PenP5.RampCallAt | libraries/pico_graphics/pico_graphics_pen_dv_p5.cpp:13-19 | call 2i sets entry i of palette 0 and call 2i + 1 entry i of palette 1 |
| PenP5.RampColours | libraries/pico_graphics/pico_graphics_pen_dv_p5.cpp:13-19 | palette 0 entry i becomes the grey 8i and palette 1 entry i > 0 the grey 8(32 - i); entry 0 of palette 1 becomes R = 1, G = 1, B = 0 |
| PenP5.PenP5.constructor | libraries/pico_graphics/pico_graphics_pen_dv_p5.cpp:9-21 | the constructor makes exactly the ramp calls, leaves every entry of both palettes free and marks the dither cache as not built |
| PenP5.PenP5.FreeEntry | libraries/pico_graphics/pico_graphics_pen_dv_p5.cpp:15-18 | entry i of both palettes becomes free and every other entry keeps its state |
| PenP5.PenP5.SetPen | libraries/pico_graphics/pico_graphics_pen_dv_p5.cpp:22-24 | set_pen keeps the low five bits of c as the colour |
| PenP5.PenP5.SetDepth | libraries/pico_graphics/pico_graphics_pen_dv_p5.cpp:25-27 | the depth becomes 1 for any non-zero request and 0 otherwise |
| PenP5.PenP5.SetPenRgb | libraries/pico_graphics/pico_graphics_pen_dv_p5.cpp:28-38 | the colour becomes the closest palette entry when there is one and is kept when the search gives -1 |
| PenP5.PenP5.UpdatePen | libraries/pico_graphics/pico_graphics_pen_dv_p5.cpp:39-46 | entry i & 0x1f of the current palette is set to (r, g, b) and marked used, the cache is invalidated and that index is returned; nothing else changes |
| PenP5.PenP5.CreatePen | libraries/pico_graphics/pico_graphics_pen_dv_p5.cpp:47-59 | create_pen gives -1, changing nothing, exactly when all 32 entries of the current palette are used; otherwise it takes the lowest free entry, sets it to (r, g, b), marks it used, invalidates the cache and returns it |
| PenP5.PenP5.ResetPen | libraries/pico_graphics/pico_graphics_pen_dv_p5.cpp:64-70 | entry i of the current palette is set to black and freed, the cache invalidated and i returned; nothing else changes |
| PenP5.PenP5.SetPixel | libraries/pico_graphics/pico_graphics_pen_dv_p5.cpp:71-73 | set_pixel writes one palette pixel of the colour and depth byte |
| PenP5.PenP5.SetPixelSpan | libraries/pico_graphics/pico_graphics_pen_dv_p5.cpp:75-77 | set_pixel_span writes l palette pixels of the colour and depth byte |
| PenRgb555.LaneBound | libraries/pico_graphics/pico_graphics_pen_dv_rgb555.cpp:116 | a blended channel stays a 5-bit value and its weighted sum fits the 9 bits below the next lane |
| PenRgb555.ScaleLanes | libraries/pico_graphics/pico_graphics_pen_dv_rgb555.cpp:116 | multiplying the expanded word scales each lane |
| PenRgb555.ReadLanes | libraries/pico_graphics/pico_graphics_pen_dv_rgb555.cpp:117 | lanes below 512 do not carry into each other, so the pack step reads each lane divided by 16 |
| PenRgb555.PixelChannels | libraries/pico_graphics/pico_graphics_pen_dv_rgb555.cpp:117 | three 5-bit channels placed in the RGB555 layout read back, with bit 15 clear |
| PenRgb555.SwarBlend | libraries/pico_graphics/pico_graphics_pen_dv_rgb555.cpp:87-117 | the one-multiply blend on expanded words is the per-channel blend (s * (16 - a) + c * a) >> 4 of every channel, never overflows 32 bits and leaves bit 15 clear |
| PenRgb555.Widen | libraries/pico_graphics/pico_graphics_pen_dv_rgb555.cpp:45-51 | set_pixel_alpha widens each 5-bit channel into the top five bits of a byte, the low three bits clear |
| PenRgb555.TilePixelMeaning | libraries/pico_graphics/pico_graphics_pen_dv_rgb555.cpp:104-138 | full alpha writes the pen colour; zero alpha keeps the frame pixel with TARGET blending and writes the background otherwise; partial alpha blends the pen colour into that base, channel by channel, at the mapped weight |
| PenRgb555.RowLenInWords | libraries/pico_graphics/pico_graphics_pen_dv_rgb555.cpp:82 | a row of w RGB555 pixels is transferred as ceil(w / 2) words |
| PenRgb555.RowAddressOffset | libraries/pico_graphics/pico_graphics_pen_dv_rgb555.cpp:81-100 | the PSRAM address of row y is y row strides past the first row's |
| PenRgb555.RowOut | libraries/pico_graphics/pico_graphics_pen_dv_rgb555.cpp:142 | each row write is a whole number of words, two pixels a word |
| PenRgb555.RowPixels | libraries/pico_graphics/pico_graphics_pen_dv_rgb555.cpp:142 | the first n pixels of a row write are n pixels |
| PenRgb555.RowPixelsAt | libraries/pico_graphics/pico_graphics_pen_dv_rgb555.cpp:142 | pixel x of the row write is the rendered pixel within the bounds and the buffer's pixel past them |
| PenRgb555.RowOutOfBuffer | libraries/pico_graphics/pico_graphics_pen_dv_rgb555.cpp:105-142 | a buffer holding the rendered pixels of the bounds, and past them what it held before, is exactly the row written out |
| PenRgb555.Prefetch | libraries/pico_graphics/pico_graphics_pen_dv_rgb555.cpp:120-123 | the prefetch of the next row is made of reads only |
| PenRgb555.RowWrite | libraries/pico_graphics/pico_graphics_pen_dv_rgb555.cpp:142 | row y is written to its own frame address and covers the bounds' width |
| PenRgb555.RowOpsWrites | libraries/pico_graphics/pico_graphics_pen_dv_rgb555.cpp:95-143 | every row of the tile is written exactly once, in order, at its frame address |
| PenRgb555.WritesAppend | libraries/pico_graphics/pico_graphics_pen_dv_rgb555.cpp:120-142 | appending a prefetch and a row write adds just that write to the writes |
| PenRgb555.NoWrites | libraries/pico_graphics/pico_graphics_pen_dv_rgb555.cpp:120-123 | a run of reads holds no writes |
| PenRgb555.Writes | libraries/pico_graphics/pico_graphics_pen_dv_rgb555.cpp:142 | picking the writes out of the transfers gives only writes |
| PenRgb555.WritesConcat | libraries/pico_graphics/pico_graphics_pen_dv_rgb555.cpp:95-143 | picking the writes out of two runs of transfers gives the writes of each, in order |
| PenRgb555.PenRgb555.constructor | libraries/pico_graphics/pico_graphics_pen_dv_rgb555.cpp:12-16 | a freshly made pen has colour and background 0, blends onto the background and has issued no transfer |
| PenRgb555.PenRgb555.SetPen | libraries/pico_graphics/pico_graphics_pen_dv_rgb555.cpp:17-19 | set_pen stores c truncated to the 16-bit RGB555 colour |
| PenRgb555.PenRgb555.SetBg | libraries/pico_graphics/pico_graphics_pen_dv_rgb555.cpp:20-22 | set_bg stores c truncated to the 16-bit RGB555 colour |
| PenRgb555.PenRgb555.RenderTile | libraries/pico_graphics/pico_graphics_pen_dv_rgb555.cpp:58-149 | render_pico_vector_tile succeeds without a transfer for empty bounds, fails without one for bounds over 128 pixels, and otherwise issues exactly the tile's reads and row writes |
| PenRgb555.RowLoop | libraries/pico_graphics/pico_graphics_pen_dv_rgb555.cpp:95-143 | the row loop over the two swapped buffers issues exactly the transfers of every row |
| PenRgb555.NextParity | libraries/pico_graphics/pico_graphics_pen_dv_rgb555.cpp:96 | the buffers alternate, so a row uses the same buffer as the row two before it |
| PenRgb555.ProcessRow | libraries/pico_graphics/pico_graphics_pen_dv_rgb555.cpp:96-142 | one pass renders row y, prefetches row y + 1 with TARGET blending, writes row y out and leaves the buffers ready for the next row |
| PenRgb555.ReadRow | libraries/pico_graphics/pico_graphics_pen_dv_rgb555.cpp:84 | raw_read_async fills the first n pixels of the buffer from the read result and leaves the rest alone |
| PenRgb555.BlendRowTarget | libraries/pico_graphics/pico_graphics_pen_dv_rgb555.cpp:104-124 | with TARGET blending every pixel of the bounds is rendered in place over the frame pixel and the rest of the buffer is left alone |
| PenRgb555.BlendRowFill | libraries/pico_graphics/pico_graphics_pen_dv_rgb555.cpp:125-138 | without TARGET blending every pixel of the bounds is rendered over the background and the rest of the buffer is left alone |
| PenRgb888.ColourBytes | libraries/pico_graphics/pico_graphics_pen_dv_rgb888.cpp:70 | the colour is taken apart into three bytes |
| PenRgb888.ColourBytesLowFirst | libraries/pico_graphics/pico_graphics_pen_dv_rgb888.cpp:70 | the three colour bytes are the colour's low 24 bits, low byte first |
| PenRgb888.BlendByteBetween | libraries/pico_graphics/pico_graphics_pen_dv_rgb888.cpp:95 | a blended byte lies between the frame byte and the colour byte, so it is a byte again; weight 0 keeps the frame byte and weight 16 gives the colour byte |
| PenRgb888.DivBetween | libraries/pico_graphics/pico_graphics_pen_dv_rgb888.cpp:95 | the shift by 4 keeps a value between 16 lo and 16 hi between lo and hi |
| PenRgb888.RowLenIsCeiling | libraries/pico_graphics/pico_graphics_pen_dv_rgb888.cpp:67 | a row is transferred in the fewest whole words that hold its 3 * w bytes |
| PenRgb888.TileByteMeaning | libraries/pico_graphics/pico_graphics_pen_dv_rgb888.cpp:84-97 | full alpha writes the colour byte, zero alpha keeps the frame byte, and partial alpha gives a byte between the frame byte and the colour byte |
| PenRgb888.RowBytes | libraries/pico_graphics/pico_graphics_pen_dv_rgb888.cpp:106 | the first n bytes of a row write are n bytes |
| PenRgb888.RowBytesAt | libraries/pico_graphics/pico_graphics_pen_dv_rgb888.cpp:106 | byte k of the row write is the rendered byte within the bounds and the byte read back past them |
| PenRgb888.RowOut | libraries/pico_graphics/pico_graphics_pen_dv_rgb888.cpp:106 | each row write is a whole number of words |
| PenRgb888.RowOutOfBuffer | libraries/pico_graphics/pico_graphics_pen_dv_rgb888.cpp:84-106 | a buffer holding the rendered bytes of the bounds, and past them the bytes read back, is exactly the row written out |
| PenRgb888.Prefetch | libraries/pico_graphics/pico_graphics_pen_dv_rgb888.cpp:100-102 | the prefetch of the next row is made of reads only |
| PenRgb888.RowWrite | libraries/pico_graphics/pico_graphics_pen_dv_rgb888.cpp:106 | row y is written to its own frame address and covers the 3 * w bytes of the bounds |
| PenRgb888.RowOpsShape | libraries/pico_graphics/pico_graphics_pen_dv_rgb888.cpp:75-107 | pass y reads row y + 1 (except after the last row) and then writes row y, so every row is read before it is written and written exactly once, in order |
| PenRgb888.PenRgb888.constructor | libraries/pico_graphics/pico_graphics_pen_dv_rgb888.cpp:4-8 | a freshly made pen has colour and background 0 and has issued no transfer |
| PenRgb888.PenRgb888.SetPen | libraries/pico_graphics/pico_graphics_pen_dv_rgb888.cpp:9-11 | set_pen stores the colour as given |
| PenRgb888.PenRgb888.SetBg | libraries/pico_graphics/pico_graphics_pen_dv_rgb888.cpp:12-14 | set_bg stores the background as given |
| PenRgb888.PenRgb888.RenderTile | libraries/pico_graphics/pico_graphics_pen_dv_rgb888.cpp:43-113 | render_pico_vector_tile succeeds without a transfer for empty bounds, fails without one for bounds over 128 pixels, and otherwise issues exactly the tile's reads and row writes |
| PenRgb888.RowLoop | libraries/pico_graphics/pico_graphics_pen_dv_rgb888.cpp:75-107 | the row loop over the two swapped buffers issues exactly the transfers of every row |
| PenRgb888.ProcessRow | libraries/pico_graphics/pico_graphics_pen_dv_rgb888.cpp:76-106 | one pass renders row y, reads row y + 1 into the other buffer, and writes row y out |
| PenRgb888.ReadRow | libraries/pico_graphics/pico_graphics_pen_dv_rgb888.cpp:68 | raw_read_async fills the first n bytes of the buffer from the read result and leaves the rest alone |
| PenRgb888.BlendRow | libraries/pico_graphics/pico_graphics_pen_dv_rgb888.cpp:84-103 | the three bytes of every pixel of the bounds are rendered in place and the rest of the buffer is left alone |
| PenRgb888.BlendPixel | libraries/pico_graphics/pico_graphics_pen_dv_rgb888.cpp:93-96 | each byte of a partially covered pixel becomes the blend of the colour byte into it, and no other byte changes |
| PicoGraphicsModule.RequiredBufferSize | modules/picographics/picographics.cpp:48-59 | each PicoVision pen type needs its pen class's buffer size and every other pen type none |
| PicoGraphicsModule.BufferHoldsEveryPixel | modules/picographics/picographics.cpp:48-59 | when the frame fits 32 bits, each PicoVision pen gets at least a byte per pixel, the RGB555 pen two and the RGB888 pen four |
| PicoGraphicsModule.MakeNew | modules/picographics/picographics.cpp:113-170 | a frame width or height of -1 means the display's; a display mode is chosen exactly for the three PicoVision pen types |
| PicoGraphicsModule.MakeNewDefaults | modules/picographics/picographics.cpp:116-136 | the defaults (pen DV_RGB888, 320 by 240, frames -1) give a 320 by 240 frame in RGB888 mode |
| PicoGraphicsModule.MakeNewModes | modules/picographics/picographics.cpp:140-155 | DV_RGB888 gets mode RGB888, DV_RGB555 mode RGB555 and DV_P5 the palette mode |
| PicoGraphicsModule.BindPositional | modules/picographics/picographics.cpp:116-128 | positional arguments bind to display, pen_type, width, height, frame_width and frame_height in that order, missing ones taking the defaults DV_RGB888, 320, 240, -1, -1; binding fails exactly when the required display is missing or more than six are given |
| PicoGraphicsModule.LoadSprite | modules/picographics/picographics.cpp:228-265 | load_sprite takes its PNG branch exactly when the data starts with the PNG signature, and otherwise loads the same bytes raw at the same index; what the PNG branch then allocates and defines is PngBranchAsWritten's |
| PicoGraphicsModule.SignatureDecides | modules/picographics/picographics.cpp:230-263 | data starting with the signature is a PNG whatever follows; data whose first byte is not 137 is loaded raw |
| PicoGraphicsModule.ArgumentTuples | modules/picographics/picographics.cpp:449-465 | a single argument must be a non-empty list (TypeError when it is not a list, ValueError when it is empty) whose items are the tuples; otherwise the arguments themselves are |
| PicoGraphicsModule.EntryError | modules/picographics/picographics.cpp:466-472 | an entry that is not a tuple, or has the wrong length, raises ValueError; one whose item is no integer raises from mp_obj_get_int |
| PicoGraphicsModule.EntryUpdate | modules/picographics/picographics.cpp:474-479 | entry i updates pen i |
| PicoGraphicsModule.SetPalette | modules/picographics/picographics.cpp:445-483 | set_palette makes, in order, the update of every 3-tuple of integers before the first bad entry, and fails with that entry's error exactly when there is one; argument errors make no update |
| PicoGraphicsModule.Polygon | modules/picographics/picographics.cpp:661-701 | polygon gives point i from the two integers of tuple i when every entry is a 2-tuple of integers, and otherwise the error of the first entry that is not |
| PicoGraphicsModule.Mask8 | modules/picographics/picographics.cpp:397-400 | v & 0xff of a C int is the byte congruent to v mod 256, and a byte is kept |
| PicoGraphicsModule.UpdatePenArgs | modules/picographics/picographics.cpp:396-401 | update_pen passes the index and components masked to a byte each |
| PicoGraphicsModule.UpdatePenArgsWrap | modules/picographics/picographics.cpp:396-401 | masking keeps byte arguments and wraps the others: 256 more or less names the same pen, and -1 is 255 |
| PicoGraphicsModule.CreatePenResult | modules/picographics/picographics.cpp:411-419 | create_pen raises ValueError exactly when the pen returns -1 and otherwise returns the pen's result |
| PicoGraphicsModule.PaletteIndex | modules/picographics/picographics.cpp:96-103 | below 8 bits per pixel the palette index is a nibble |
| PicoGraphicsModule.NibblesRebuildByte | modules/picographics/picographics.cpp:100-102 | an even pixel and the odd one after it are the high and low nibble of the same byte |
| PicoGraphicsModule.NibblesOf | modules/picographics/picographics.cpp:100-102 | the high and low nibble of a byte rebuild it |
| PicoGraphicsModule.PixelColour | modules/picographics/picographics.cpp:79-108 | truecolour pixels are always opaque, truecolour-with-alpha pixels exactly when their alpha is not 0, and indexed pixels unless the palette has alpha and the entry's alpha is 0 |
| PicoGraphicsModule.Argb1555Fields | modules/picographics/picographics.cpp:84-108 | the ARGB1555 pixel holds the top five bits of red, green and blue, and the display driver finds it transparent exactly when the colour is not opaque |
| PicoGraphicsModule.Argb1555Red | modules/picographics/picographics.cpp:84 | bits 10-14 are the top five bits of red |
| PicoGraphicsModule.Argb1555Green | modules/picographics/picographics.cpp:84 | bits 5-9 are the top five bits of green |
| PicoGraphicsModule.Argb1555Blue | modules/picographics/picographics.cpp:84 | bits 0-4 are the top five bits of blue |
| PicoGraphicsModule.Argb1555Alpha | modules/picographics/picographics.cpp:92 | bit 15 is set exactly for an opaque colour |
| PicoGraphicsModule.SpritePixelOpacity | modules/picographics/picographics.cpp:79-93 | truecolour PNG sprites are opaque everywhere; with alpha, exactly the pixels of alpha 0 are transparent |
| PicoGraphicsModule.DrawSpriteRow | modules/picographics/picographics.cpp:61-111 | PNGDrawSprite writes pixel x of row y at word y * width + x of the buffer and changes nothing else; a row of a colour type it does not handle changes nothing |
| PicoGraphicsModule.WritePixels | modules/picographics/picographics.cpp:78-110 | the pixel loop writes each pixel's sprite word one after another from the row's start and changes nothing else |
| PicoGraphicsModule.SpriteRowsFit | modules/pngdec/pngdec.cpp:378 | a buffer of width * height halfwords, as decode_as_sprite allocates from the decoder's size, holds every row of the image |
| PicoGraphicsModule.DecodeReadsCallbackSlot | modules/picographics/picographics.cpp:35-46 | load_sprite's `_PNG_obj_t` and the decoder's (pngdec.cpp:22-29) share their fields up to `buf`, and the next field is `decode_callback` in the first and `graphics` in the second, so _PNG_decode reads the callback pointer as its graphics object |
| PicoGraphicsModule.OpenFile | modules/pngdec/pngdec.cpp:222-230 | _PNG_openFILE records the source and leaves the width and height as they were |
| PicoGraphicsModule.PngBranchAsWritten | modules/picographics/picographics.cpp:270-294 | the PNG branch as written allocates width * height halfwords and defines a sprite of that width and height, with the size load_sprite set before opening |
| PicoGraphicsModule.PngBranchAllocatesNothing | modules/picographics/picographics.cpp:276-283 | whatever the data, the PNG branch as written allocates 0 halfwords and defines a 0 by 0 sprite, so not even the first row of an image fits |
| PicoGraphicsModule.PngBranch | modules/pngdec/pngdec.cpp:378-382 | the PNG branch as intended defines a sprite of the opened image's width and height |
| PicoGraphicsModule.PngBranchHoldsRows | modules/pngdec/pngdec.cpp:378-382 | with the intended sizing the buffer is exactly width * height halfwords and every row of the image lies inside it |
| PngDec.Colours | modules/pngdec/pngdec.cpp:101-139 | the colours of the first n pixels of a row are n colours |
| PngDec.ColoursAt | modules/pngdec/pngdec.cpp:101-139 | entry x of the colours is the colour of pixel x |
| PngDec.DrawCallsShape | modules/pngdec/pngdec.cpp:110-139 | every plot among a row's calls is on that row, at one of its pixels, right after the pen is set to that pixel's colour |
| PngDec.DrawCallsPlot | modules/pngdec/pngdec.cpp:116-137 | pixel x is plotted exactly when it is visible |
| PngDec.RowPlots | modules/pngdec/pngdec.cpp:102-140 | a truecolour pixel is always plotted, a truecolour-with-alpha pixel exactly when its alpha byte is not 0, and an indexed pixel exactly when the palette's alpha table does not give it 0 |
| PngDec.RowPlotsPlaced | modules/pngdec/pngdec.cpp:102-140 | every plot PNGDraw makes for a row lies on that row, at the current position plus a pixel's offset, right after the pen call for that pixel's colour |
| PngDec.DecodeCallback | modules/pngdec/pngdec.cpp:274-286 | decode hands files and buffers alike to PNGDraw, which expects the graphics surface decode passes |
| PngDec.SpriteCallbackMismatch | modules/pngdec/pngdec.cpp:359-380 | as written, decode_as_sprite gives a buffer source PNGDraw, which takes the sprite buffer it is passed for a graphics surface; a file source gets PNGDrawSprite, which expects that buffer |
| PngDec.SpriteCallback | modules/pngdec/pngdec.cpp:365-371 | the callback decode_as_sprite evidently means is PNGDrawSprite for both sources, the one a file source gets, and it expects the sprite buffer |
| PngDec.PngDecoder.constructor | modules/pngdec/pngdec.cpp:32-33 | the module starts with no flags set and the position at (0, 0) |
| PngDec.PngDecoder.Draw | modules/pngdec/pngdec.cpp:86-141 | PNGDraw makes exactly the row's pen and plot calls at the current position; rows of other colour types draw nothing |
| PngDec.PngDecoder.DrawRows | modules/pngdec/pngdec.cpp:317 | the decoder calls PNGDraw once per row, in order, at the current position |
| PngDec.PngDecoder.Decode | modules/pngdec/pngdec.cpp:244-329 | decode sets the flags (FLAG_NO_DITHER exactly when dither is False) and the position; raises RuntimeError exactly when the source does not open, leaving both set; otherwise draws every row at (x, y), resets both and returns whether the decoder gave 1 |
| PngDec.PngDecoder.DecodeAsSprite | modules/pngdec/pngdec.cpp:332-394 | decode_as_sprite raises RuntimeError exactly when the source does not open; otherwise it defines sprite index from the width by height image written over the fresh buffer, resets the flags and returns whether the decoder gave 1 |
| PngDec.DrawImageRow | modules/pngdec/pngdec.cpp:380 | the callback for row i leaves the buffer holding the image of the first i + 1 rows |
| PngDec.RowsCallsStep | modules/pngdec/pngdec.cpp:317 | drawing one more row appends its calls |
| PngDec.SpriteImage | modules/pngdec/pngdec.cpp:378-380 | the sprite image keeps the size of the buffer it is written over |
| PngDec.SpriteImageStep | modules/pngdec/pngdec.cpp:378-380 | a buffer PNGDrawSprite wrote row i into holds the image of the first i + 1 rows |
| FloppyBirb.Dimensions | examples/floppy_birb/floppy_birb.py:74-98 | on the 720 by 480 display the game area is 360 by 320 from y = 80 to 400, a slice is 72 pixels and the level 100 slices |
| FloppyBirb.PipeGeometry | examples/floppy_birb/floppy_birb.py:362-381 | the top pipe, the gap and the bottom pipe fill the game height; the gap starts where the top pipe ends; each pipe's stretch is at most 32 sprite heights and never longer than the pipe |
| FloppyBirb.FallbackPipes | examples/floppy_birb/floppy_birb.py:356-358 | past the end of the level both pipes are 65 pixels high |
| FloppyBirb.LevelPipesClear | examples/floppy_birb/floppy_birb.py:122-144 | every gap new_level can draw leaves both pipes at least the 50-pixel margin plus the cap high (one less for an odd gap width), so no pipe height is negative |
| FloppyBirb.PipeZones | examples/floppy_birb/floppy_birb.py:394-401 | each pipe slot adds two fail zones and a score zone |
| FloppyBirb.ScoreZoneClearOfPipes | examples/floppy_birb/floppy_birb.py:394-397 | the score zone, a one-pixel column just past the pipe spanning the gap, overlaps neither fail zone |
| FloppyBirb.Countdown | examples/floppy_birb/floppy_birb.py:420-421 | the countdown of the waiting states never goes below zero |
| FloppyBirb.CountdownDone | examples/floppy_birb/floppy_birb.py:420-428 | the countdown reads exactly 0 once 3000 ms have passed |
| FloppyBirb.NextStateTargets | examples/floppy_birb/floppy_birb.py:427-490 | the four states are closed under the loop: GET_READY can only move to RUNNING, RUNNING never goes back to GET_READY, and WIN and LOSE only lead back to GET_READY; a waiting state moves exactly when its countdown is done |
| FloppyBirb.AfterActionsTargets | examples/floppy_birb/floppy_birb.py:309-327 | from RUNNING the collision actions lead only to RUNNING, WIN or LOSE |
| FloppyBirb.Scored | examples/floppy_birb/floppy_birb.py:319-327 | score_point keeps the length of the score list |
| FloppyBirb.ScoredOnce | examples/floppy_birb/floppy_birb.py:319-327 | score_point sets the entry at the offset (Python indexing, out of range ignored) and no other; only a first score redraws, and scoring again changes nothing |
| FloppyBirb.Game.constructor | examples/floppy_birb/floppy_birb.py:101-106 | every gap, width and score entry starts at 0 or False; the game starts in GET_READY at time 0 |
| FloppyBirb.Game.NewState | examples/floppy_birb/floppy_birb.py:303-306 | new_state sets the state and its start time and leaves the level alone |
| FloppyBirb.Game.NewLevel | examples/floppy_birb/floppy_birb.py:122-144 | new_level caps every drawn gap width at 190 and stores every drawn gap position, changing nothing else |
| FloppyBirb.Game.ResetGame | examples/floppy_birb/floppy_birb.py:207-213 | reset_game clears every score entry and starts running, keeping the level |
| FloppyBirb.Game.ScorePoint | examples/floppy_birb/floppy_birb.py:319-327 | score_point marks the pipe scored and redraws exactly on a first score, changing nothing else |
| FloppyBirb.Game.RunActions | examples/floppy_birb/floppy_birb.py:256-260 | the actions the collision test fired run in order: the score and the state are those the actions leave |
| FloppyBirb.Game.Tick | examples/floppy_birb/floppy_birb.py:476-490 | one pass of the main loop moves the state as NextState says; a running game scores the fired actions; GET_READY draws a fresh level (every gap position drawn, every gap width capped at 190) and clears the score when its countdown ends; every other pass keeps the level's gaps and widths, and the waiting states keep the score |
| BouncingLogo.Edge | examples/bouncing_logo.py:114-130 | edge_collision leaves the logo on the screen: a test that fires negates that velocity, an edge past the screen is pulled back onto it, a logo already inside keeps its position, and the end coordinates are left as they were |
| BouncingLogo.EdgeAtZero | examples/bouncing_logo.py:116-129 | the tests are not symmetric: a top edge at 0 turns the logo round and keeps it at 0, a left edge at 0 does not turn it; neither changes a speed |
| BouncingLogo.EdgeKeepsSpeed | examples/bouncing_logo.py:114-130 | the edge rule never changes a velocity's magnitude, and a second application leaves the position where the first put it |
| BouncingLogo.Moved | examples/bouncing_logo.py:277-280 | each frame the start moves by the velocity and the ends follow the start again |
| BouncingLogo.HitChain | examples/bouncing_logo.py:143-188 | a pair takes exactly the first branch of the elif chain whose test holds, and none when no test holds |
| BouncingLogo.HitOfPlaces | examples/bouncing_logo.py:143-188 | the collision tests look only at positions, never at velocities |
| BouncingLogo.Bounce | examples/bouncing_logo.py:147-186 | a branch only flips signs, sending i away from j and j away from i along the collision's axis; positions, speeds and the other axis are unchanged, and no branch changes nothing |
| BouncingLogo.PairUpdate | examples/bouncing_logo.py:141-188 | one pair update keeps the number of logos |
| BouncingLogo.Collided | examples/bouncing_logo.py:140-188 | object_collision keeps the number of logos |
| BouncingLogo.CollidedKeepsPlaces | examples/bouncing_logo.py:140-188 | collisions move no logo and change no speed; they only turn logos |
| BouncingLogo.Splatter | examples/bouncing_logo.py:201-213 | add_splatter and clear_splatter each make four sprite calls |
| BouncingLogo.SplatterSlots | examples/bouncing_logo.py:201-205 | the splatter's quarters take slots 17 to 20 and sit at offsets 0 and 32 from (x, y) |
| BouncingLogo.SplatStepEmpty | examples/bouncing_logo.py:141-188 | a pair draws no splatter exactly when it is i = j or takes no branch |
| BouncingLogo.NoCollisionStep | examples/bouncing_logo.py:140-152 | no collision among the first n pairs means none among the first n - 1 and none for pair n - 1 |
| BouncingLogo.SplatsEmptyIffNoCollision | examples/bouncing_logo.py:139-191 | clear_splatter runs exactly when no logo collided with logo j |
| BouncingLogo.DrawSlots | examples/bouncing_logo.py:85-91 | logo k uses slots 4k+1 to 4k+4, one per quarter, each with its own quarter image, which for k below MAX_LOGOS lie in 1..16; without the sprite file no sprite is shown |
| BouncingLogo.DrawSlotsDisjoint | examples/bouncing_logo.py:85-91 | two different logos never share a sprite slot |
| BouncingLogo.Logo.constructor | examples/bouncing_logo.py:73-83 | a new logo starts at the drawn position, its ends 64 pixels on, moving at the default speed in the drawn directions |
| BouncingLogo.EdgeCollision | examples/bouncing_logo.py:114-130 | edge_collision leaves the logo as Edge says |
| BouncingLogo.Move | examples/bouncing_logo.py:277-280 | the position update leaves the logo as Moved says |
| BouncingLogo.ApplyBounce | examples/bouncing_logo.py:147-186 | one branch applied to two distinct logos leaves them as Bounce says |
| BouncingLogo.Boxes | examples/bouncing_logo.py:63 | the snapshots of a list of logos are one per logo |
| BouncingLogo.BoxesAt | examples/bouncing_logo.py:63 | snapshot m is logo m's |
| BouncingLogo.BoxesFrom | examples/bouncing_logo.py:63 | the snapshots are determined logo by logo |
| BouncingLogo.BouncePair | examples/bouncing_logo.py:141-188 | turning logos i and j of a distinct list changes those two snapshots and no other |
| BouncingLogo.MoveStep | examples/bouncing_logo.py:276-281 | moving logo num and bouncing it off the edges changes its snapshot and no other |
| BouncingLogo.TestPair | examples/bouncing_logo.py:141-188 | one pass of object_collision's loop turns the pair as its branch says and draws a splatter at j when it took one |
| BouncingLogo.CollideStep | examples/bouncing_logo.py:140 | one more pass of the loop adds that pair's update and splatter |
| BouncingLogo.SplatterLoop | examples/bouncing_logo.py:139-188 | the loop leaves the logos as Collided says, draws every pair's splatter and records whether there was any |
| BouncingLogo.CollideWith | examples/bouncing_logo.py:138-191 | object_collision over a distinct list turns the logos as Collided says, makes exactly the splatter calls and clears the splatter exactly when there was no collision |
| BouncingLogo.StepLogo | examples/bouncing_logo.py:276-282 | a turn keeps the number of logos |
| BouncingLogo.FrameUpTo | examples/bouncing_logo.py:275-283 | the first n turns keep the number of logos |
| BouncingLogo.Turn | examples/bouncing_logo.py:276-283 | logo num's turn moves it, bounces it off the edges, runs object_collision(num) and draws it |
| BouncingLogo.FrameStep | examples/bouncing_logo.py:275 | one more turn of the frame's loop applies that logo's step and appends its calls |
| BouncingLogo.FrameLoop | examples/bouncing_logo.py:275-283 | the frame loop over a distinct list gives the logos and calls of every turn in order |
| BouncingLogo.FrameKeepsOnScreen | examples/bouncing_logo.py:275-283 | after n turns every logo that had its turn lies on the screen, whatever later collisions did, and no speed has changed |
| BouncingLogo.FrameOnScreen | examples/bouncing_logo.py:275-283 | after a whole frame every logo lies on the screen |
| BouncingLogo.Scene.constructor | examples/bouncing_logo.py:251-254 | the script starts with the one logo add_logo makes and the button timer started |
| BouncingLogo.Scene.AddLogo | examples/bouncing_logo.py:195-200 | add_logo appends a new logo, keeps the ones before it and counts one more |
| BouncingLogo.Scene.Poll | examples/bouncing_logo.py:259-264 | more than 500 ms after the last look a pressed Y button adds a logo while fewer than MAX_LOGOS exist, and the timer restarts; the count never exceeds MAX_LOGOS |
| BouncingLogo.Scene.ObjectCollision | examples/bouncing_logo.py:138-191 | object_collision(j) tests every other logo against j in order, turning each pair, and clears the splatter exactly when no logo hit j |
| BouncingLogo.Scene.Frame | examples/bouncing_logo.py:274-283 | the frame's logo loop moves, bounces and draws each logo in turn |
| BouncingLogoAnim.CollidedAfter | examples/bouncing_logo/bouncing_logo.py:138-168 | object_collision(j) after testing i = j+1 up to n-1 keeps the number of logos |
| BouncingLogoAnim.CollidedAfterKeeps | examples/bouncing_logo/bouncing_logo.py:138-168 | object_collision(j) leaves every logo before j as it was, moves no logo and changes no speed's magnitude: it only turns logo j and the logos after it |
| BouncingLogoAnim.CollideAfterStep | examples/bouncing_logo/bouncing_logo.py:140-168 | each loop pass over i applies the pair rule to (i, j) on the result of the passes before it |
| BouncingLogoAnim.PairsFrom | examples/bouncing_logo/bouncing_logo.py:140 | object_collision(j) tests the pairs (j+1, j) up to (n-1, j), in that order |
| BouncingLogoAnim.PairsTestedOnce | examples/bouncing_logo/bouncing_logo.py:140-229 | over one frame the pair (i, j) is tested exactly when j < i, and no pair is tested twice |
| BouncingLogoAnim.CollidedAfterIsPairsFrom | examples/bouncing_logo/bouncing_logo.py:138-168 | object_collision(j) is the pair rule applied, in order, to exactly the pairs PairsFrom enumerates for j, each naming two logos of the list |
| BouncingLogoAnim.PositionalConstructorMakesNoPen | examples/bouncing_logo/bouncing_logo.py:15 | the positional call binds PEN_RGB555 to make_new's display argument and 640 to pen_type, so no PicoVision pen and no display mode is set up |
| BouncingLogoAnim.KeywordConstructorGivesScreen | examples/bouncing_logo.py:14 | the keyword form of the call gives an RGB555 frame of exactly the 640 by 480 screen the logos bounce in |
| BouncingLogoAnim.EdgeThenCollide | examples/bouncing_logo/bouncing_logo.py:226-229 | logo num's step of the first loop (edge test, then object_collision(num)) keeps the number of logos |
| BouncingLogoAnim.BouncedUpTo | examples/bouncing_logo/bouncing_logo.py:226-229 | the first loop after n steps keeps the number of logos |
| BouncingLogoAnim.BouncedStep | examples/bouncing_logo/bouncing_logo.py:226-229 | step n of the first loop applies edge_collision and object_collision to logo n of the result so far |
| BouncingLogoAnim.BouncedOnScreen | examples/bouncing_logo/bouncing_logo.py:116-132 | the first loop changes no speed's magnitude and leaves every logo that had its edge test inside the screen |
| BouncingLogoAnim.Draw | examples/bouncing_logo/bouncing_logo.py:72-113 | Logo.draw raises IndexError exactly when the sprite file was loaded and fewer than four sub-images came back |
| BouncingLogoAnim.DrawSlots | examples/bouncing_logo/bouncing_logo.py:78-103 | with four sub-images logo k shows sub-image q in slot 4(k+1)-3+q, and the slots of the first MAX_LOGOS logos lie within the 16 sprite slots |
| BouncingLogoAnim.MovedUpTo | examples/bouncing_logo/bouncing_logo.py:232-237 | moving the first n logos keeps the number of logos |
| BouncingLogoAnim.MovedUpToAt | examples/bouncing_logo/bouncing_logo.py:232-237 | after n moves, logo m has moved by its velocity when m < n and is unchanged otherwise |
| BouncingLogoAnim.MovedEnds | examples/bouncing_logo/bouncing_logo.py:234-237 | after a frame that did not raise every logo's end coordinates are its start plus the 64 x 64 image size |
| BouncingLogoAnim.TestPair | examples/bouncing_logo/bouncing_logo.py:143-168 | one pass of object_collision's loop updates the two logo objects exactly as the pair rule says and touches no other logo |
| BouncingLogoAnim.ObjectCollision | examples/bouncing_logo/bouncing_logo.py:138-168 | object_collision(j) on the logo objects leaves them as the pair rule applied to every i after j says |
| BouncingLogoAnim.EdgeStep | examples/bouncing_logo/bouncing_logo.py:226-229 | logo num's step of the first loop updates the objects as edge_collision followed by object_collision(num) says |
| BouncingLogoAnim.BouncePass | examples/bouncing_logo/bouncing_logo.py:226-229 | the whole first loop leaves the objects as the functional first loop says |
| BouncingLogoAnim.MoveOne | examples/bouncing_logo/bouncing_logo.py:233-237 | moving logo num moves its start by its velocity, puts its ends back at start plus the image size and changes no other logo |
| BouncingLogoAnim.MoveStepFacts | examples/bouncing_logo/bouncing_logo.py:232-238 | each step of the second loop moves one more logo and appends that logo's draw calls made at its new position |
| BouncingLogoAnim.MoveAndDraw | examples/bouncing_logo/bouncing_logo.py:232-238 | the second loop moves and draws each logo in turn; a draw that raises ends the loop with IndexError, and the objects and calls are those of the functional pass |
| BouncingLogoAnim.Scene.constructor | examples/bouncing_logo/bouncing_logo.py:192-195 | the script starts with one logo from add_logo and the timer at the current tick |
| BouncingLogoAnim.Scene.AddLogo | examples/bouncing_logo/bouncing_logo.py:171-176 | add_logo appends a new logo while fewer than MAX_LOGOS are shown and otherwise leaves the list alone, so the list never holds more than MAX_LOGOS |
| BouncingLogoAnim.Scene.Poll | examples/bouncing_logo/bouncing_logo.py:198-205 | more than 500 ms after the last look a pressed (low) Y button adds a logo and the timer restarts; otherwise nothing changes |
| BouncingLogoAnim.Scene.Frame | examples/bouncing_logo/bouncing_logo.py:226-238 | one frame first bounces every logo off the edges and the logos after it, then moves and draws each logo, stopping on IndexError |
| Alert.Rectangle | examples/alert/alert.py:104-126 | with both cut sizes positive the polygon has eight points, otherwise it is exactly the four corners clockwise from the top left |
| Alert.RectangleOnOutline | examples/alert/alert.py:104-126 | when the cuts fit the box every point lies on the box's outline, and with cuts narrower than the box none of its four corners is a point of the polygon |
| Alert.IndexOf | examples/alert/alert.py:156 | `MODES.index(m)` is the first position holding m, and it fails exactly when m is not in the list |
| Alert.IndexOfFirst | examples/alert/alert.py:156 | an element met for the first time at position i is found at i |
| Alert.ModesDistinct | examples/alert/alert.py:17 | the five mode names are pairwise different |
| Alert.NextMode | examples/alert/alert.py:154-157 | a press of Y has a next mode exactly when the current mode is one of MODES |
| Alert.NextModeCycles | examples/alert/alert.py:154-157 | pressing Y moves mode i to mode (i+1) mod 5 |
| Alert.RainbowWrapsToNot | examples/alert/alert.py:154-157 | RAINBOW ALERT wraps round to NOT ALERT |
| Alert.Band | examples/alert/alert.py:207-218 | each mode's band is a non-empty range inside 0..100 |
| Alert.Clamp | examples/alert/alert.py:207-218 | `max(lo, min(v, hi))` lies in the mode's band and leaves a value already in it unchanged |
| Alert.Adjusted | examples/alert/alert.py:204-218 | the graph update keeps the number of bars |
| Alert.AdjustedAt | examples/alert/alert.py:204-218 | bar i becomes the mode's clamp of the bar plus its random step |
| Alert.AdjustedInBand | examples/alert/alert.py:204-218 | after an update every bar lies in the mode's band (0-20, 80-100, 40-70 or 0-100), and a step of at most one moves a bar already in the band by at most one |
| Alert.Siren | examples/alert/alert.py:233-239 | in RED ALERT the pitch rises by SIREN_URGENCY and falls back to 440 once it passes 540 |
| Alert.SirenCycle | examples/alert/alert.py:233-239 | a pitch in 440..540 stays there; from 440 the siren climbs 448, 456, ... 536 and is back at 440 on the thirteenth frame |
| Alert.Beep | examples/alert/alert.py:240-247 | outside RED ALERT the pitch is eight times the chosen bar, never below 1, and exactly eight times a bar of at least 1 |
| Alert.Refreshed | examples/alert/alert.py:80-87 | full_refresh puts the pulse back to 0 and the pitch back to 440 and changes nothing else of the panel |
| Alert.Pulsed | examples/alert/alert.py:165-193 | drawing the text keeps the mode, bars and pitch; a pulse in 0..1 stays in 0..1, and the pulsing modes always end with the pulse in 0..1 |
| Alert.FrameKeepsGood | examples/alert/alert.py:153-249 | every pass of the main loop keeps the mode known, twelve bars in the mode's band and the pulse in 0..1; the pitch played is in 440..540 in RED ALERT and at least 1 otherwise |
| Alert.AlertPanel.constructor | examples/alert/alert.py:134-151 | the panel starts in NOT ALERT with the twelve starting bars, the pulse at 0 and the pitch at 440, a state the main loop keeps |
| Alert.AlertPanel.FullRefresh | examples/alert/alert.py:80-101 | the object's new state is full_refresh applied to the old one |
| Alert.AlertPanel.DrawText | examples/alert/alert.py:165-193 | the object's new state is the text step applied to the old one |
| Alert.AlertPanel.UpdateGraphs | examples/alert/alert.py:204-218 | the bar loop leaves every bar clamped after its step, and nothing else changes |
| Alert.AlertPanel.MakeNoise | examples/alert/alert.py:232-247 | the pitch passed to the siren and the new state are those of the noise step for the picked bar |
| Alert.AlertPanel.Tick | examples/alert/alert.py:153-249 | one pass of the main loop gives the state and pitch of the functional frame, and the panel stays good |
| SeaFax.Next | examples/seafax.py:83 | `stream.read(1)` gives one byte exactly when the stream is not at its end, and nothing at the end |
| SeaFax.Stream.constructor | examples/seafax.py:152 | the response stream starts at the first byte of its body |
| SeaFax.Stream.Read | examples/seafax.py:83 | reading returns the next byte, or nothing at the end, and advances the position by what it returned |
| SeaFax.ScanUntil | examples/seafax.py:81-86 | read_until never moves the stream backwards or past its end, and a delimiter found has been consumed |
| SeaFax.ScanUntilMeaning | examples/seafax.py:81-86 | the bytes consumed are the result followed by the delimiter, with no delimiter inside the result; a None result means the delimiter does not occur in the rest of the stream, which is then read to its end |
| SeaFax.ScanUntilFinds | examples/seafax.py:81-86 | conversely a run of k delimiter-free bytes followed by the delimiter is exactly what read_until returns, leaving the stream just past the delimiter |
| SeaFax.ScanUntilRest | examples/seafax.py:81-86 | the same for a run given by its contents |
| SeaFax.PrependNothing | examples/seafax.py:82-86 | collecting nothing before a scan leaves its result unchanged |
| SeaFax.PrependTwice | examples/seafax.py:82-86 | collecting a then b before a scan is the same as collecting a + b |
| SeaFax.ReadUntil | examples/seafax.py:81-86 | the byte-at-a-time loop returns what the functional scan says and leaves the stream where it says |
| SeaFax.DiscardUntil | examples/seafax.py:89-90 | discard_until moves the stream exactly as read_until would |
| SeaFax.FirstFieldMeaning | examples/seafax.py:143 | `split(b" ")[0]` is the prefix of the tag up to its first space, or all of it when it has none |
| SeaFax.ParseStep | examples/seafax.py:99-147 | a turn of the loop that goes on has consumed at least one byte and stays within the stream |
| SeaFax.CDataStep | examples/seafax.py:113-118 | the `<!` branch always goes on and stays within the stream |
| SeaFax.CloseStep | examples/seafax.py:120-138 | the `</` branch stays within the stream |
| SeaFax.OpenStep | examples/seafax.py:140-144 | the opening-tag branch stays within the stream |
| SeaFax.Parse | examples/seafax.py:93-147 | running parse_xml_stream to its end never moves past the end of the stream |
| SeaFax.Turn | examples/seafax.py:99-147 | one turn of the generator's loop on the stream object gives the functional step and leaves the stream at its position |
| SeaFax.CDataTurn | examples/seafax.py:113-118 | the CDATA branch on the stream object gives the functional CDATA step |
| SeaFax.CloseTurn | examples/seafax.py:120-138 | the closing-tag branch on the stream object gives the functional closing step |
| SeaFax.OpenTurn | examples/seafax.py:140-144 | the opening-tag branch on the stream object gives the functional opening step |
| SeaFax.ParseXmlStream | examples/seafax.py:93-147 | the generator run by `list` from empty locals yields the items, raises and leaves the stream as the functional parse says |
| SeaFax.OpenTag | examples/seafax.py:140-144 | an opening tag pushes its first byte plus the name up to the first space and empties the text, while a tag ending in '/' closes itself |
| SeaFax.OpenStepOf | examples/seafax.py:141-144 | the opening branch ends just past the '>' and pushes the name unless the tag closes itself |
| SeaFax.OpenDispatch | examples/seafax.py:104-106 | a '<' followed by a byte other than '?', '!' or '/' takes the opening-tag branch |
| SeaFax.CloseTag | examples/seafax.py:120-138 | a closing tag pops the stack and empties the text; an accepted tag first files its text under its name; closing group_by yields the dictionary and starts a fresh one, and the loop ends once that was the max_items-th group |
| SeaFax.CloseWithEmptyStack | examples/seafax.py:122 | a closing tag with nothing open raises IndexError and yields nothing more |
| SeaFax.ProcessingInstruction | examples/seafax.py:107-110 | `<?...>` is skipped up to its '>' without touching the parser's state |
| SeaFax.CData | examples/seafax.py:113-118 | `<![CDATA[...]]>` skips to the '[', takes the text up to the next ']' and skips to the '>', changing nothing but the text |
| SeaFax.CDataLaidOut | examples/seafax.py:113-118 | for the usual `<![CDATA[content]]>` spelling the text taken is the content whole |
| SeaFax.StepSound | examples/seafax.py:99-147 | each step keeps the dictionaries' keys accepted and the count within max_items, and a step that stops without raising or filling up was at the end of the stream |
| SeaFax.ParseSound | examples/seafax.py:93-147 | every yielded dictionary holds only accepted tags, no more than max_items are yielded when max_items is at least 1, and a run that neither raised nor filled up read the whole stream |
| SeaFax.RssRunSound | examples/seafax.py:150-154 | get_rss gets at most seven dictionaries, each holding only the four accepted tags |
| SneksAndLadders.LevelMatchesGrid | examples/sneks_and_ladders/sneks_and_ladders.py:20-46 | the grid the drawing loop walks, TILES_Y = 12 rows of TILES_X = 20 cells on a 320 x 240 display, is exactly the shape of the level data |
| SneksAndLadders.TileType | examples/sneks_and_ladders/sneks_and_ladders.py:193-199 | a filled cell is drawn as a left end exactly when the cell to its left exists and is empty, as a right end exactly when it is not a left end and the cell to its right exists and is empty, and as a middle piece otherwise |
| SneksAndLadders.LonePlatformIsLeftEnd | examples/sneks_and_ladders/sneks_and_ladders.py:195-199 | a one-cell platform is drawn as a left end, because the left test is made first |
| SneksAndLadders.FireFrame | examples/sneks_and_ladders/sneks_and_ladders.py:177-180 | every fire frame chosen is one of the NUM_FRAMES frames of the strip |
| SneksAndLadders.FireFramesDistinct | examples/sneks_and_ladders/sneks_and_ladders.py:162-180 | the five columns of one group show five different frames |
| SneksAndLadders.ShiftMod | examples/sneks_and_ladders/sneks_and_ladders.py:179 | adding f to a frame number moves its residue like adding f mod 5 |
| SneksAndLadders.SmallMod | examples/sneks_and_ladders/sneks_and_ladders.py:179 | a frame sum below 10 reduces mod 5 by at most one subtraction |
| SneksAndLadders.FirstFree | examples/sneks_and_ladders/sneks_and_ladders.py:57 | `files.index(None)` is the lowest empty slot, and it fails exactly when every slot is taken |
| SneksAndLadders.CropRow | examples/sneks_and_ladders/sneks_and_ladders.py:84-85 | row y of split holds sprites_x crops, crop x at (bx + x sw, by + y sh) of the sprite size |
| SneksAndLadders.CropGrid | examples/sneks_and_ladders/sneks_and_ladders.py:83-85 | split cuts sprites_x times sprites_y crops |
| SneksAndLadders.CropGridAt | examples/sneks_and_ladders/sneks_and_ladders.py:83-85 | the crops come in row-major order: crop k is in column k mod sprites_x of row k div sprites_x |
| SneksAndLadders.SpriteData.constructor | examples/sneks_and_ladders/sneks_and_ladders.py:52-54 | all MAX_SPRITE_DATA_SLOTS = 32 file and crop slots start empty |
| SneksAndLadders.SpriteData.Add | examples/sneks_and_ladders/sneks_and_ladders.py:56-60 | add stores the file and crop in the lowest empty slot and returns it, changing no other slot; with every slot taken it raises ValueError and stores nothing |
| SneksAndLadders.SpriteData.Split | examples/sneks_and_ladders/sneks_and_ladders.py:74-88 | split places the crops of the grid, in order, in rising slots that were empty, leaving the other slots alone; a zero sprite size raises ZeroDivisionError with nothing stored, and running out of slots raises ValueError once every slot is taken |
| SneksAndLadders.SpriteData.SplitRow | examples/sneks_and_ladders/sneks_and_ladders.py:84-86 | the inner loop of split extends the placed crops by those of row y, or raises ValueError once every slot is taken |
| SneksAndLadders.PrefixStep | examples/sneks_and_ladders/sneks_and_ladders.py:84-86 | taking one more crop of a row extends the crops placed so far by that crop |
| SneksAndLadders.PlacedStep | examples/sneks_and_ladders/sneks_and_ladders.py:85-86 | one more add extends what split has placed |
| SneksAndLadders.FreshSlot | examples/sneks_and_ladders/sneks_and_ladders.py:57-58 | the slot add picks is none of those split already used |
| SneksAndLadders.EntriesStep | examples/sneks_and_ladders/sneks_and_ladders.py:85-86 | after one more add each slot split used holds the file and its crop |
| SneksAndLadders.RisingStep | examples/sneks_and_ladders/sneks_and_ladders.py:57 | the slots split uses rise, and every slot below the last one used is taken |
| SneksAndLadders.UntouchedStep | examples/sneks_and_ladders/sneks_and_ladders.py:58-59 | one more add changes only the slot it picked |
| PvGame.Tail | examples/sneks_and_ladders/pvgame.py:11-14 | the text after the stem starts with '-' for a crop value or '.' for ".bin" |
| PvGame.CacheName | examples/sneks_and_ladders/pvgame.py:9-14 | the cache name is the file name without its last four characters, then the crop text, then ".bin"; without a crop it is exactly stem + ".bin" |
| PvGame.TailEndsInBin | examples/sneks_and_ladders/pvgame.py:13-14 | whatever the crop, the cache name ends in ".bin" |
| PvGame.IntStrToken | examples/sneks_and_ladders/pvgame.py:13 | the decimal text of an integer followed by a non-digit can be read back uniquely, so "-x-y-w-h" determines x, y, w and h |
| PvGame.TailInjective | examples/sneks_and_ladders/pvgame.py:11-14 | different crop values give different cache-name tails |
| PvGame.ConsSplit | examples/sneks_and_ladders/pvgame.py:13 | a non-empty crop text splits into its first character and the rest |
| PvGame.CacheNameInjective | examples/sneks_and_ladders/pvgame.py:9-14 | two different crops of one file, or a crop and the whole image, never share a cache file |
| PvGame.AddRaises | examples/sneks_and_ladders/pvgame.py:36-42 | add can only raise IndexError, from popping an empty list |
| PvGame.AddedKeepsBound | examples/sneks_and_ladders/pvgame.py:36-42 | add never takes the list past max_sprites; a list with room gains the item at the end, a full list is unchanged unless forced, and a forced add on a full list drops the oldest item and appends the new one |
| PvGame.SlotsCoverList | examples/sneks_and_ladders/pvgame.py:47-53 | display addresses slot i once for each i below max_sprites, shows item i in slot i while there is one and clears every later slot |
| PvGame.SpriteList.constructor | examples/sneks_and_ladders/pvgame.py:31-34 | a sprite list starts empty with the given capacity |
| PvGame.SpriteList.Add | examples/sneks_and_ladders/pvgame.py:36-42 | add on the object changes the list as the functional add says and raises exactly when that says |
| PvGame.SpriteList.Clear | examples/sneks_and_ladders/pvgame.py:44-45 | clear empties the list |
| PvGame.SpriteList.Display | examples/sneks_and_ladders/pvgame.py:47-53 | display makes one call per slot, slot i getting the call the list determines |
| PvGame.TouchesSharePoint | examples/sneks_and_ladders/pvgame.py:67-71 | when the overlap test fires on boxes of non-negative size the two closed boxes share a point, named explicitly |
| PvGame.SharedPointTouches | examples/sneks_and_ladders/pvgame.py:67-71 | conversely two closed boxes sharing a point make the test fire |
| PvGame.FiredAppend | examples/sneks_and_ladders/pvgame.py:67-71 | testing a list of zones after more zones are added runs the earlier zones' actions first |
| PvGame.FiredExactly | examples/sneks_and_ladders/pvgame.py:67-71 | test runs the action of every touching zone, once per such zone, and no other action |
| PvGame.CollisionList.constructor | examples/sneks_and_ladders/pvgame.py:58-59 | a collision list starts with no zones |
| PvGame.CollisionList.Add | examples/sneks_and_ladders/pvgame.py:61-62 | add appends the zone and its action |
| PvGame.CollisionList.Clear | examples/sneks_and_ladders/pvgame.py:64-65 | clear removes every zone |
| PvGame.CollisionList.Test | examples/sneks_and_ladders/pvgame.py:67-71 | test hands back, in zone order, exactly the actions the functional test fires |
| PvGame.Reversed | examples/sneks_and_ladders/pvgame.py:89-90 | reversing keeps the length |
| PvGame.PingPongCycle | examples/sneks_and_ladders/pvgame.py:88-90 | a ping-pong list of n >= 2 frames has 2n - 2 frames, starts with the frames in order and comes back through the interior frames, frame k reappearing at position 2n - 2 - k |
| PvGame.Step | examples/sneks_and_ladders/pvgame.py:100-114 | update raises only IndexError from the level lookup; otherwise the actor moves down by v_y and keeps v_y |
| PvGame.StepTurnsBack | examples/sneks_and_ladders/pvgame.py:103-114 | after a turn the actor is back where it started, moving the other way and facing the way it now moves; otherwise it moved by its velocity and faces as before |
| PvGame.StepStaysOnLevel | examples/sneks_and_ladders/pvgame.py:100-114 | an actor standing on the level is still on it after update, because a step off the row is undone |
| PvGame.FrameAt | examples/sneks_and_ladders/pvgame.py:116-120 | the frame shown is one of the side's frames, `t % count` never being negative |
| PvGame.Actor.constructor | examples/sneks_and_ladders/pvgame.py:79-95 | the actor starts at (x, y) moving left at one pixel per frame, facing left, with the frame lists extended for ping-pong |
| PvGame.Actor.Bounds | examples/sneks_and_ladders/pvgame.py:97-98 | bounds is the actor's 16 x 16 tile, which contains the point update tests |
| PvGame.Actor.Update | examples/sneks_and_ladders/pvgame.py:100-114 | update on the object moves it as the functional step says, raises exactly when that says and changes nothing else |
| PvGame.Actor.Draw | examples/sneks_and_ladders/pvgame.py:116-121 | draw queues the frame for time t at the offset position on the sprite list; a side with no frames raises ZeroDivisionError and queues nothing |
| MainMenu.Upper | examples/main.py:44 | `upper` turns a-z into A-Z and leaves every other character alone |
| MainMenu.Split | examples/main.py:44 | `split("_")` always yields at least one piece |
| MainMenu.Capitalize | examples/main.py:44 | `v[:1].upper() + v[1:]` keeps the length of the piece |
| MainMenu.CapitalizeAll | examples/main.py:44 | capitalising every piece keeps the number of pieces |
| MainMenu.TitleRef | examples/main.py:42-44 | the character-wise title has one character per character of the stem |
| MainMenu.JoinedPrefix | examples/main.py:44 | joining pieces whose first piece starts with c starts with c |
| MainMenu.TitleRefUnderscore | examples/main.py:44 | an underscore becomes a space and upper-cases the next character |
| MainMenu.TitleRefPlain | examples/main.py:44 | any other character is kept, upper-cased only at the start of a word |
| MainMenu.TitleMatchesRef | examples/main.py:44 | the split, capitalise and join construction computes the character-wise title |
| MainMenu.TitleCharacters | examples/main.py:42-44 | the title of "something_or_other.py" has one character per character of the name without ".py": a space for each underscore, upper case at the start of each word, the rest unchanged |
| MainMenu.LessAsymmetric | examples/main.py:54 | str `<` is asymmetric |
| MainMenu.NotLessTransitive | examples/main.py:54 | "not less than" on str is transitive |
| MainMenu.Insert | examples/main.py:54 | inserting into a title-sorted list keeps it sorted and adds exactly the new entry |
| MainMenu.SortByTitle | examples/main.py:54 | `sorted(..., key=title)` returns the same entries in title order |
| MainMenu.SortedAllPairs | examples/main.py:54 | in a sorted list every later title is no smaller than every earlier one |
| MainMenu.LessAsymmetricSelf | examples/main.py:54 | no title is less than itself |
| MainMenu.ListedMeaning | examples/main.py:39-51 | the loop over listdir collects an entry exactly for each ".py" file other than "main.py", with that file's title |
| MainMenu.GetApplicationsMeaning | examples/main.py:37-54 | an application is offered exactly when its file is a ".py" file other than "main.py", with that file's title; the list is in title order and holds each listed file as often as listdir named it |
| MainMenu.Up | examples/main.py:90-93 | up moves the target one entry back and wraps from the first entry to the last, staying inside the list |
| MainMenu.Down | examples/main.py:95-98 | down moves the target one entry on and wraps from the last entry to the first, staying inside the list |
| MainMenu.UpDownCycle | examples/main.py:90-98 | k presses of up, or of down, move the target k places round the list |
| MainMenu.FullCircle | examples/main.py:90-98 | as many presses as there are entries bring the target back to where it was |
| MainMenu.ModStep | examples/main.py:92-97 | one step of the wrap is one step of the index mod the number of entries |
| MainMenu.Menu.constructor | examples/main.py:66-81 | the menu starts with the sorted applications, entry 2 selected and targeted, and both repeat timers at 0 |
| MainMenu.Menu.Step | examples/main.py:87-121 | one pass moves the target (up, then down, each at most every 250 ms, wrapping), and then either Y hands back the file of the entry selected on the previous pass (IndexError where Python's index misses) or the scroll eases a fifth of the way to the target and the selection becomes the target |
| MainMenu.TargetStaysInRange | examples/main.py:90-121 | a target inside the list stays inside it whatever is pressed, so the selection names a real entry |
| MainMenu.FewAppsFirstSelect | examples/main.py:77-106 | the selection starts at entry 2: with fewer than three applications a press of Y straight away raises IndexError, and with one application pressing up first leaves the target at 1, past the end |
| PySemantics.PyIndex | examples/main.py:106 | a list index succeeds exactly for -len <= i < len, a negative index counting from the end, and otherwise raises IndexError |
| PySemantics.PyIndexFromEnd | examples/sneks_and_ladders/pvgame.py:118-120 | an index and the same index written from the end reach one element |
| PySemantics.DropLast | examples/sneks_and_ladders/pvgame.py:10 | `filename[:-4]` is everything but the last four characters, or nothing for a shorter name |
| PySemantics.DropFirst | examples/sneks_and_ladders/pvgame.py:89 | `frames[1:]` is the list without its first element, and empty stays empty |
| PySemantics.TruncDiv | examples/sneks_and_ladders/pvgame.py:106-107 | `int(a / b)` for a positive divisor rounds toward zero: below the quotient for a non-negative dividend, above it for a negative one |
| PySemantics.TruncDivAgainstFloor | examples/sneks_and_ladders/pvgame.py:106-107 | truncation and floor division differ exactly on a negative dividend that is not a multiple, where truncation is one above the floor |
| PySemantics.PyIntDiv | examples/sneks_and_ladders/sneks_and_ladders.py:78-79 | `int(a / b)` for a divisor of either sign is non-negative when the signs agree and is truncation for a positive divisor |
| PySemantics.Decimal | examples/sneks_and_ladders/pvgame.py:13 | `str(n)` is a non-empty string of decimal digits with no leading zero |
| PySemantics.DecimalRoundTrip | examples/sneks_and_ladders/pvgame.py:13 | reading the digits of `str(n)` back gives n |
| PySemantics.IntStr | examples/sneks_and_ladders/pvgame.py:13 | `str(i)` starts with '-' exactly for a negative i and is digits after the sign |
| PySemantics.IntStrRoundTrip | examples/sneks_and_ladders/pvgame.py:13 | reading `str(i)` back gives i |
| Bytes.Wrap32 | drivers/aps6404/aps6404_perf_critical.cpp:140 | uint32_t arithmetic keeps the value modulo 2^32 |
| Bytes.Int32 | drivers/aps6404/aps6404_perf_critical.cpp:10-11 | `int len = len_in_bytes` reads a uint32_t as a two's-complement int32: negative exactly from 2^31 on, and equal to the unsigned value modulo 2^32; setup_scroll_group's int32_t address casts (dv_display.cpp:272-273) are the same view |

## Left out

Abstractions of the model:

- PenP5.PenP5.SetPenRgb: `set_pen(r, g, b)` takes as its `closest` parameter the palette entry that `RGB::closest` picks, or -1. `RGB::closest` is not part of this model.
- PenRgb555.PenRgb555.RenderTile: `bounds` is given already clipped; the intersection with the clip rectangle is computed by the caller's `Rect` code, which is not part of this model. It requires the alpha samples, the row read results and the two stack buffers to cover the tile, because the C++ code reads them unchecked.
- PenRgb888.PenRgb888.RenderTile: the same as for the RGB555 renderer: `bounds` is given already clipped, and the alpha samples, row read results and stack buffers must cover the tile.
- The `rows` parameter of both tile renderers holds what the `raw_read_async` row reads return. The PSRAM contents behind them are not modelled, and neither is the order in which the asynchronous reads and writes complete.
- `misaligned` in DvDisplay.DVDisplay.WritePixelSpan16Data and `align` in DvDisplay.DVDisplay.WritePaletteSpanData stand for `(uintptr_t)data & 0x2` and `(uintptr_t)data & 0x3`. Dafny sequences have no addresses, so the alignment of the buffer's address is an input.
- Aps6404.APS6404: PAGE_SIZE is a constructor parameter, any power of two. It is defined in aps6404.hpp, which is not part of this model.
- PicoGraphicsDv: sizeof(RGB888) is taken as 4. RGB888 is a `uint32_t` typedef in pico_graphics.hpp, which is not part of this model.
- `set_pixel_dither` of the P5 pen is not modelled. It depends on the candidate cache built by `get_dither_candidates`, which sorts by floating-point luminance. Only its cache key and pattern index are modelled (PenP5.CacheKey, PenP5.PatternIndex).
- `create_pen_hsv`, `hsv_to_rgb` and every other floating-point computation are left out: `get_gpu_temp`, `get_gpio_29_adc`, `set_led_level`, `Birb.update` physics and the hue backgrounds of the scripts. The alert panel's pulse (Alert) and the menu's scroll easing toward its target (MainMenu.Menu.Step, `scroll_position += (target - scroll_position) / 5`) are modelled over reals, without IEEE rounding.
- Foreign code is not modelled, and the results it returns are inputs:
  - the PNGdec decoder;
  - PicoVector;
  - the `RGB` class: `closest`, `blend`, `to_rgb555`, `to_rgb888`, `from_hsv`;
  - the I2C driver, the MicroPython stream and VFS calls, and `mp_arg_parse_*`.

  Because of this, the RGB555 and RGB888 pens' `set_pen(r, g, b)` and `create_pen`, and the blend inside `set_pixel_alpha`, are left out. Only the channel widening of `set_pixel_alpha` is modelled (PenRgb555.Widen).
- The pens' `set_pixel` and `set_pixel_span` of the RGB555 and RGB888 pens are one-line calls of the driver's `write_pixel`/`write_pixel_span`, which are modelled.
- `flip`, `flip_async`, `wait_for_flip` and the vsync interrupt are left out. They wait for an interrupt to clear a volatile flag (concurrency).
- `preinit` and `reset` are left out: they only drive pins and wait. So are `get_edid`, the LED setters, `enable_gpio_29_adc`, `set_display_palette_index` and `load_pvs_sprite`, which are single I2C transfers or file reads.
- The PSRAM read-back functions (`read`, `read_pixel_span`, `read_24bpp_pixel_span`, `read_palette_pixel_span`, `get_palette`) are left out, because their result is whatever the hardware returns.
- Aps6404: transfer addresses are unbounded naturals, so the `uint32_t` sums such as `addr += page_len` (aps6404_perf_critical.cpp:26-46) are not wrapped. The addresses of the 8 MB chip stay far below 2^32.
- The PSRAM and DMA hardware is left out, as are the PIO programs, clock thresholds and DMA configuration of aps6404.cpp. Transfers are modelled only as the entries of a log.
- Synth audio (PicoSynth) is left out, as are the MicroPython binding tables.
- WiFi, NTP and urequests are left out. The XML parser of seafax.py is fed a byte sequence.
- `random.*`, `time.ticks_ms()` and button levels are parameters. Each main-loop pass reads the clock once, and the wrap-around of `ticks_ms` is not modelled.
- Text is a sequence of characters. `decode("utf-8")` in seafax.py is taken to keep the bytes as they are, and `str.upper` changes only a-z (MainMenu.Upper).
- `sorted` is modelled by insertion after every entry with a title that is not greater. Its stability with respect to listdir order is not stated.
- Drawing-only calls are left out: text, rectangles, the starfield of alert.py, and the borders and polygons handed to PicoVector.
- Logo.draw's "File not found" fallback in bouncing_logo/bouncing_logo.py is modelled only as "no sprite call". The script's logos move on the 640 x 480 screen its keyword-style constructor call would set up; the positional call it actually makes is a finding below.
- PicoGraphicsModule.LoadSprite: the model does not capture that, for a buffer argument, `load_sprite` frees the caller's buffer with `m_del` (picographics.cpp:260 and :265), and on the PNG branch then decodes from that freed object (:280). It also does not capture that on the file path's PNG branch `fhandle` and `buf` (:238-239) are never released. The model says which branch is taken and, for the PNG branch, what it allocates and defines (PicoGraphicsModule.PngBranchAsWritten, in "## Findings"). What `_PNG_decode` does through the mismatched object, beyond the slot DecodeReadsCallbackSlot names, is undefined behaviour and is not modelled.
- `load_animation`'s sub-image indexes are a parameter of the drawing code.
- SpriteData.load of sneks_and_ladders.py is left out. It only hands every stored file and crop to `load_sprite`.
- The contents of the `cached_png` cache files are left out. Only the cache name is modelled (PvGame.CacheName).
- pvgame.py has an aliasing effect: the ping-pong extension in `Actor.__init__` appends to the caller's frame lists, and PvGame.Actor.constructor does not capture it. It models the actor's own frame lists only.
- The P5 pen follows pico_graphics_pen_dv_p5.cpp, which keeps two 32-entry `used` arrays. The single array declared in pico_graphics_dv.hpp:46 disagrees with it.

Preconditions narrower than the source, each for input where the C++ or Python behaviour is undefined or beyond a documented limit:

- DvSprite.GetSpriteLimits: requires `|row| < 256`. The row width is a `uint16_t`, but `offset` and `length` are `uint8_t`s (dv_display.cpp:41-55), which wrap past 255 pixels. The widest documented sprite is 64 pixels.
- DvSprite.DefineSpriteInternal: requires `width < 256`, `height <= 64` and pixel data for every row. The header packs `(height << 8) + width`, so a wider sprite spills into the height byte. The documented limit is 64 by 64, and the C++ code reads the caller's buffer unchecked.
- DvDisplay.DVDisplay.DefineSprite: the same size bounds as DvSprite.DefineSpriteInternal.
- DvDisplay.DVDisplay.DefinePaletteSprite: the same size bounds as DvSprite.DefineSpriteInternal.
- PenP5.PenP5.ResetPen: requires `i < 32`. `reset_pen` does not mask its index (pico_graphics_pen_dv_p5.cpp:64-70), so a larger index writes past the 32-entry `used` and palette arrays, whose effect is undefined.
- PenP5.PenP5.UpdatePen, PenP5.PenP5.CreatePen and PenP5.PenP5.ResetPen: require the current local palette index `cp < NUM_PALETTES` (2). They index `used[current_palette]` (pico_graphics_pen_dv_p5.cpp:42, :51, :67) with the driver's palette index unchecked, so an index from 2 up reads and writes past the two-row `used` array, whose effect is undefined.
- DvDisplay.ResolutionFor and DvDisplay.InitResolutionTable: model the build without SUPPORT_WIDE_MODES. The widescreen build's extra branches of init (dv_display.cpp:138-150), for 800x600, 800x480, 800x450, 960x540 and 1280x720, and their resolution codes are not modelled, so a display of those sizes is refused here as the default build refuses it.
- DvDisplay.DVDisplay.SetPaletteColourIn: requires `palette_idx * 32 + entry` to lie inside the `palette` array. `set_palette_colour` (dv_display.cpp:633-640) does not check it, so a larger index writes outside the array.
- DvDisplay.DVDisplay.SetPaletteColour: the same bound as SetPaletteColourIn, for the current palette.
- DvDisplay.DVDisplay.WriteRgb888: requires `3 * len < 2^31`, so that the `int` byte counts of `write(RGB888)` do not overflow. That is far beyond the 8 MB of PSRAM.
- DvDisplay.DVDisplay.WritePixelSpan24Data: requires `3 * len < 2^32`, so that `uint l = len_in_pixels * 3` (dv_display.cpp:607) does not wrap. That is far beyond the 8 MB of PSRAM.
- DvDisplay.DVDisplay.WritePixel: requires that the pending run in `pixel_buffer` was started by `write_pixel` and not by `write_palette_pixel`. The two functions share the buffer, and mixing them in one frame format is not meaningful.
- DvDisplay.DVDisplay.WritePalettePixel: the same no-mixing precondition, from the palette side.
- Aps6404.APS6404.Read: requires `lenWords < 2^29`, so that `len_in_words << 2` and `len_in_words * 8` stay below 2^32. That is far beyond the 8 MB PSRAM.
- Aps6404.APS6404.MultiRead: the same bound for each of the lengths.

The source as written versus the model (see "## Findings"):

- DvDisplay.DVDisplay.WritePixel and DvDisplay.DVDisplay.WritePalettePixel use the corrected append test DvDisplay.Appends, which does not reopen a flushed run. The test as written is DvDisplay.AppendsAsWritten.
- DvDisplay.DVDisplay.WritePaletteSpanData cuts the head of a misaligned span short by the span's length. The transfers as written, where the count wraps around, are DvDisplay.PaletteSpanExtentsAsWritten.
- DvDisplay.DVDisplay.WritePixelSpan16Data writes nothing for an empty span. The transfers as written are DvDisplay.Span16ExtentsAsWritten.
- DvSprite: sprite definition uses MAX_SPRITE_ROWS = 64 row entries, where the C++ code has 32. The as-written bound is DvSprite.RowsFitAsWritten.
- PicoGraphicsModule.LoadSprite's PNG branch is PicoGraphicsModule.PngBranch, sized from the opened image. The branch as written is PicoGraphicsModule.PngBranchAsWritten.
- PngDec.PngDecoder.DecodeAsSprite uses PngDec.SpriteCallback for both sources. The callback as written is PngDec.SpriteCallbackAsWritten.

## Findings

Nothing was executed. Each row rests on the code as written and a lemma about it.

| source | as written | input that shows it | evidently intended | confidence | as-written member | corrected member |
|---|---|---|---|---|---|---|
| drivers/dv_display/dv_display.cpp:533 | `write_pixel` appends when `pixel_buffer_location.y == p.y` and `x + pixel_buffer_x == p.x`. After a full run of 64 pixels the run is flushed and y is set to -1, but `pixel_buffer_x` stays 64. The same holds for `write_palette_pixel` at dv_display.cpp:664 | a full run flushed at (x0, y), then a pixel at (x0 + 64, -1): it passes the test and is stored in `pixel_buffer[32]`, one word past the 32-word buffer | a flushed run (y == -1) never takes appends | plausible; not executed (needs a caller that lets y = -1 through clipping) | DvDisplay.AppendsAsWritten, DvDisplay.SentinelReopensFullRun | DvDisplay.Appends, DvDisplay.AppendStaysInBuffer |
| drivers/dv_display/dv_display.cpp:693-699 | `write_palette_pixel_span` with a misaligned buffer writes `min(offset, l)` head bytes, then does `l -= offset` without the same cut | l = 1 with the buffer one byte past a word boundary (offset 3): l wraps to 0xFFFFFFFE and a second transfer of nearly 4 GB follows | the rest is `l - min(offset, l)` | high; not executed | DvDisplay.PaletteSpanExtentsAsWritten, DvDisplay.PaletteSpanExtentsAgree, DvDisplay.PaletteSpanUnderflow | DvDisplay.PaletteSpanHead, DvDisplay.PaletteSpanSharesOut |
| drivers/dv_display/dv_display.cpp:566-575 | `write_pixel_span(p, l, data)` with a buffer off a word boundary writes `data[0]` and does `--l` with no test that l > 0 | l = 0 with a misaligned buffer: one pixel not in the span is written, then l wraps to 0xFFFFFFFF and `l << 1` asks for 0xFFFFFFFE bytes | an empty span writes nothing | high; not executed | DvDisplay.Span16ExtentsAsWritten, DvDisplay.Span16ExtentsAgree, DvDisplay.Span16Underflow | DvDisplay.Span16Head |
| drivers/dv_display/dv_display.cpp:751-752 | `define_sprite_internal` keeps one entry per row in `uint8_t offsets[32]` and `lengths[32]` | the 16 x 64 ARGB1555 sprite (or the 45 x 45 palette sprite) documented in dv_display.hpp:193-199: rows 32 and up are stored past the end of both arrays | arrays with one entry for each of the 64 rows a documented sprite can have | high; not executed | DvSprite.RowsFitAsWritten, DvSprite.DocumentedSizesOverflowRowArrays | DvSprite.DocumentedSizesFitCorrected |
| modules/pngdec/pngdec.cpp:371 | `decode_as_sprite` opens a file source with `PNGDrawSprite`, but a buffer source with `PNGDraw`. It then passes a `uint16_t` sprite buffer as the user data in both cases | a PNG given as a bytes buffer: `PNGDraw` treats the sprite buffer as the graphics surface object | `PNGDrawSprite` for buffer sources too | high; not executed | PngDec.SpriteCallbackAsWritten, PngDec.SpriteCallbackMismatch | PngDec.SpriteCallback |
| examples/bouncing_logo/bouncing_logo.py:15 | `PicoGraphics(PEN_RGB555, 640, 480)` passes its arguments by position, but make_new's first parameter is `display` (picographics.cpp:116-124). PEN_RGB555 becomes the display, 640 the pen type and 480 the width | this call: pen type 640 takes the `default` branch at picographics.cpp:156, which leaves `graphics` unset, and the clearing loop at picographics.cpp:164 then calls `set_pen` through it | an RGB555 640 x 480 display, as the keyword form `PicoGraphics(DISPLAY_PICOVISION, width=640, height=480, pen_type=PEN)` of examples/bouncing_logo.py:14 sets up | high; not executed | BouncingLogoAnim.PositionalConstructorMakesNoPen | BouncingLogoAnim.KeywordConstructorGivesScreen |
| modules/picographics/picographics.cpp:270-294 | `load_sprite`'s PNG branch sets `width` and `height` to 0 and calls `_PNG_openFILE`, which stores only the source (pngdec.cpp:222-230). It then allocates `width * height * 2` bytes, decodes through `_PNG_decode`, and calls `define_sprite(index, width, height, ...)`. `_PNG_decode` is compiled against pngdec.cpp's own `_PNG_obj_t` (pngdec.cpp:22-29): it reads the slot that holds `decode_callback` as `self->graphics` (pngdec.cpp:293, :316), and it always opens with `PNGDraw` | any PNG given to `load_sprite`: the buffer is 0 bytes, the decode dereferences the PNGDrawSprite pointer as a graphics object, and if it returns, define_sprite gets a 0 by 0 sprite | decode into a buffer of the image's width * height halfwords with PNGDrawSprite, and define a sprite of that size, as `decode_as_sprite` does (pngdec.cpp:378-382) | high; not executed | PicoGraphicsModule.PngBranchAsWritten, PicoGraphicsModule.PngBranchAllocatesNothing, PicoGraphicsModule.DecodeReadsCallbackSlot | PicoGraphicsModule.PngBranch, PicoGraphicsModule.PngBranchHoldsRows |

A further behaviour, kept as written. For a tile of odd width, `render_pico_vector_tile` of the RGB555 pen writes `(bounds.w + 1) >> 1` words per row (pico_graphics_pen_dv_rgb555.cpp:82 and :142). That is one pixel more than the bounds hold. With TARGET blending that pixel is the frame's own pixel, read back. Without it, that pixel is whatever the stack buffer held, so a stale pixel lands one past the tile's right edge. PenRgb555.RowPixelsAt and PenRgb555.RowOutOfBuffer state this: the written pixel past the bounds is the buffer's earlier content.
