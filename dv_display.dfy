/** The PicoVision display driver object: resolution selection in init, the
    header, scanline table and sprite table it writes into both PSRAM
    banks, the write-coalescing pixel buffer, the palette store, the sprite
    and scroll-group registers and the GPIO helpers. Every transfer the
    driver issues is appended, in order, to the object's bus log. */
module DvDisplay {
  import opened Wrappers
  import opened Bytes
  import opened DvDisplayHeader
  import opened DvBus
  import opened DvSprite
  import opened DvRecords

  // ---------------------------------------------------------------------
  // Resolution selection in init
  // ---------------------------------------------------------------------

  /** The internal frame width: the display width when none is given, then
      rounded up to a multiple of 4 in uint16_t arithmetic. */
  function FrameWidthFor(displayWidth: nat, frameWidth: nat): (w: nat)
    requires displayWidth < 0x10000 && frameWidth < 0x10000
    ensures w < 0x10000 && w % 4 == 0
  {
    var f := if frameWidth == 0 then displayWidth else frameWidth;
    if f % 4 != 0 then (f + 4 - f % 4) % 0x10000 else f
  }

  /** The frame width is the smallest multiple of 4 not below the requested
      one; only a request above 65532 wraps the uint16_t to 0. */
  lemma FrameWidthRoundsUp(displayWidth: nat, frameWidth: nat)
    requires displayWidth < 0x10000 && frameWidth < 0x10000
    ensures var f := if frameWidth == 0 then displayWidth else frameWidth;
            (f <= 0xFFFC ==> f <= FrameWidthFor(displayWidth, frameWidth) < f + 4) &&
            (f > 0xFFFC ==> FrameWidthFor(displayWidth, frameWidth) == 0)
  {
  }

  /** The frame height: the display height when none is given. */
  function FrameHeightFor(displayHeight: nat, frameHeight: nat): (h: nat)
    ensures frameHeight == 0 ==> h == displayHeight
    ensures frameHeight != 0 ==> h == frameHeight
  {
    if frameHeight == 0 then displayHeight else frameHeight
  }

  /** Pixels are doubled horizontally below 640 and for 640x360 and 640x720. */
  predicate HDoubled(displayWidth: nat, displayHeight: nat)
  {
    displayWidth < 640 || (displayWidth == 640 && (displayHeight == 360 || displayHeight == 720))
  }

  /** Lines are doubled below 400. */
  predicate VDoubled(displayHeight: nat)
  {
    displayHeight < 400
  }

  /** RGB888 is only available with horizontal doubling. */
  predicate RejectsRgb888(displayWidth: nat, displayHeight: nat, m: Mode)
  {
    m == ModeRgb888 && !HDoubled(displayWidth, displayHeight)
  }

  function HRepeatFor(displayWidth: nat, displayHeight: nat): (h: nat)
    ensures h == 1 || h == 2
  {
    if HDoubled(displayWidth, displayHeight) then 2 else 1
  }

  function VRepeatFor(displayHeight: nat): (v: nat)
    ensures v == 1 || v == 2
  {
    if VDoubled(displayHeight) then 2 else 1
  }

  /** The HDMI timing for an output size, when the table has one. */
  function ResolutionFor(fullWidth: nat, fullHeight: nat): (r: Option<Resolution>)
    ensures r == Some(Res640x480) <==> fullWidth == 640
    ensures r == Some(Res720x480) <==> fullWidth == 720 && fullHeight == 480
    ensures r == Some(Res720x400) <==> fullWidth == 720 && fullHeight == 400
    ensures r == Some(Res720x576) <==> fullWidth == 720 && fullHeight == 576
  {
    if fullWidth == 640 then Some(Res640x480)
    else if fullWidth == 720 then
      (if fullHeight == 480 then Some(Res720x480)
       else if fullHeight == 400 then Some(Res720x400)
       else if fullHeight == 576 then Some(Res720x576)
       else None)
    else None
  }

  /** The resolution init selects, or None when it returns false. */
  function InitResolution(displayWidth: nat, displayHeight: nat, m: Mode): Option<Resolution>
  {
    if RejectsRgb888(displayWidth, displayHeight, m) then None
    else ResolutionFor(displayWidth * HRepeatFor(displayWidth, displayHeight),
                       displayHeight * VRepeatFor(displayHeight))
  }

  /** The display sizes init accepts, resolution by resolution: a 640 wide
      output for widths 320 and 640 (except the doubled 640x360 and
      640x720), and a 720 wide output for widths 360 and 720 whose
      (possibly doubled) height is 480, 400 or 576. */
  lemma InitResolutionTable(displayWidth: nat, displayHeight: nat, m: Mode)
    ensures InitResolution(displayWidth, displayHeight, m) == Some(Res640x480) <==>
              !RejectsRgb888(displayWidth, displayHeight, m) &&
              (displayWidth == 320 || (displayWidth == 640 && displayHeight != 360 && displayHeight != 720))
    ensures InitResolution(displayWidth, displayHeight, m) == Some(Res720x480) <==>
              !RejectsRgb888(displayWidth, displayHeight, m) &&
              (displayWidth == 360 || displayWidth == 720) && (displayHeight == 240 || displayHeight == 480)
    ensures InitResolution(displayWidth, displayHeight, m) == Some(Res720x400) <==>
              !RejectsRgb888(displayWidth, displayHeight, m) &&
              (displayWidth == 360 || displayWidth == 720) && (displayHeight == 200 || displayHeight == 400)
    ensures InitResolution(displayWidth, displayHeight, m) == Some(Res720x576) <==>
              !RejectsRgb888(displayWidth, displayHeight, m) &&
              (displayWidth == 360 || displayWidth == 720) && (displayHeight == 288 || displayHeight == 576)
  {
    var fw := displayWidth * HRepeatFor(displayWidth, displayHeight);
    var fh := displayHeight * VRepeatFor(displayHeight);
    assert fw == 640 <==> displayWidth == 320 || (displayWidth == 640 && displayHeight != 360 && displayHeight != 720);
    assert fw == 720 <==> displayWidth == 360 || displayWidth == 720;
    assert fh == 480 <==> displayHeight == 240 || displayHeight == 480;
    assert fh == 400 <==> displayHeight == 200 || displayHeight == 400;
    assert fh == 576 <==> displayHeight == 288 || displayHeight == 576;
  }

  /** The byte written to the resolution register: the resolution code, with
      bit 7 set for maximum compatibility. */
  function ResModeByte(r: Resolution, maxCompatibility: bool): (b: bv8)
    ensures b & 0x7F == ResolutionCode(r) as bv8
    ensures b & 0x80 != 0 <==> maxCompatibility
  {
    var c := ResolutionCode(r) as bv8;
    if maxCompatibility then c | 0x80 else c
  }

  // ---------------------------------------------------------------------
  // What the header writers and set_mode send
  // ---------------------------------------------------------------------

  /** Scanline words are written 32 lines per transfer. */
  const LINE_CHUNK: nat := 32

  function NumLineChunks(miny: int, maxy: int): (n: nat)
    ensures miny < maxy ==> LINE_CHUNK * (n - 1) < maxy - miny <= LINE_CHUNK * n
    ensures maxy <= miny ==> n == 0
  {
    if maxy <= miny then 0 else (maxy - miny + LINE_CHUNK - 1) / LINE_CHUNK
  }

  /** The number of lines in chunk c. */
  function ChunkLines(miny: int, maxy: int, c: nat): (n: nat)
    requires c < NumLineChunks(miny, maxy)
    ensures 1 <= n <= LINE_CHUNK
  {
    Min(LINE_CHUNK, maxy - (miny + LINE_CHUNK * c))
  }

  /** Where chunk c of the scanline words of lines miny.. goes: the table
      starts after the seven preamble words, one word per line. */
  function ChunkAddress(miny: int, c: nat): (a: nat)
    ensures a < U32
  {
    Wrap32(4 * (7 + miny) + 4 * LINE_CHUNK * c)
  }

  /** The scanline words of chunk c; with a negative scroll index the
      previous words, read back from RAM, are passed in as previous. */
  function ChunkWords(m: Mode, idx: int, hRepeat: nat, frameWidth: nat, miny: int, maxy: int,
                      previous: seq<bv32>, c: nat): (ws: seq<bv32>)
    requires hRepeat < 256 && c < NumLineChunks(miny, maxy)
    requires idx < 0 ==> |previous| >= maxy - miny
    ensures |ws| == ChunkLines(miny, maxy, c)
  {
    seq(ChunkLines(miny, maxy, c), j requires 0 <= j < ChunkLines(miny, maxy, c) =>
      ScanlineWord(m, idx, hRepeat, miny + LINE_CHUNK * c + j, frameWidth,
                   if idx >= 0 then 0 else previous[LINE_CHUNK * c + j]))
  }

  /** Transfers per chunk: a read back, for a negative index, and a write. */
  function OpsPerChunk(idx: int): (k: nat)
    ensures 1 <= k <= 2
  {
    if idx < 0 then 2 else 1
  }

  /** Transfer k of set_scroll_idx_for_lines. */
  function ScrollIdxOp(m: Mode, idx: int, hRepeat: nat, frameWidth: nat, miny: int, maxy: int,
                       previous: seq<bv32>, k: nat): BusOp
    requires hRepeat < 256 && k < OpsPerChunk(idx) * NumLineChunks(miny, maxy)
    requires idx < 0 ==> |previous| >= maxy - miny
  {
    var c := k / OpsPerChunk(idx);
    if k % OpsPerChunk(idx) < OpsPerChunk(idx) - 1 then RamRead(ChunkAddress(miny, c), ChunkLines(miny, maxy, c))
    else RamWrite(ChunkAddress(miny, c), WordsLe(ChunkWords(m, idx, hRepeat, frameWidth, miny, maxy, previous, c)))
  }

  /** Everything set_scroll_idx_for_lines(idx, miny, maxy) sends. */
  function ScrollIdxOps(m: Mode, idx: int, hRepeat: nat, frameWidth: nat, miny: int, maxy: int,
                        previous: seq<bv32>): (ops: seq<BusOp>)
    requires hRepeat < 256
    requires idx < 0 ==> |previous| >= maxy - miny
    ensures |ops| == OpsPerChunk(idx) * NumLineChunks(miny, maxy)
  {
    ScrollOpsUpTo(m, idx, hRepeat, frameWidth, miny, maxy, previous, OpsPerChunk(idx) * NumLineChunks(miny, maxy))
  }

  /** The first n transfers of set_scroll_idx_for_lines. */
  function ScrollOpsUpTo(m: Mode, idx: int, hRepeat: nat, frameWidth: nat, miny: int, maxy: int,
                         previous: seq<bv32>, n: nat): (ops: seq<BusOp>)
    requires hRepeat < 256 && n <= OpsPerChunk(idx) * NumLineChunks(miny, maxy)
    requires idx < 0 ==> |previous| >= maxy - miny
    ensures |ops| == n
  {
    if n == 0 then []
    else ScrollOpsUpTo(m, idx, hRepeat, frameWidth, miny, maxy, previous, n - 1) +
         [ScrollIdxOp(m, idx, hRepeat, frameWidth, miny, maxy, previous, n - 1)]
  }

  /** Transfer k of ScrollOpsUpTo is ScrollIdxOp. */
  lemma {:induction false} ScrollOpsUpToAt(m: Mode, idx: int, hRepeat: nat, frameWidth: nat, miny: int, maxy: int,
                                           previous: seq<bv32>, n: nat, k: nat)
    requires hRepeat < 256 && k < n <= OpsPerChunk(idx) * NumLineChunks(miny, maxy)
    requires idx < 0 ==> |previous| >= maxy - miny
    ensures ScrollOpsUpTo(m, idx, hRepeat, frameWidth, miny, maxy, previous, n)[k] ==
              ScrollIdxOp(m, idx, hRepeat, frameWidth, miny, maxy, previous, k)
  {
    if k < n - 1 {
      ScrollOpsUpToAt(m, idx, hRepeat, frameWidth, miny, maxy, previous, n - 1, k);
    }
  }

  /** Transfer k of set_scroll_idx_for_lines is ScrollIdxOp. */
  lemma ScrollIdxOpsAt(m: Mode, idx: int, hRepeat: nat, frameWidth: nat, miny: int, maxy: int,
                       previous: seq<bv32>, k: nat)
    requires hRepeat < 256 && k < OpsPerChunk(idx) * NumLineChunks(miny, maxy)
    requires idx < 0 ==> |previous| >= maxy - miny
    ensures ScrollIdxOps(m, idx, hRepeat, frameWidth, miny, maxy, previous)[k] ==
              ScrollIdxOp(m, idx, hRepeat, frameWidth, miny, maxy, previous, k)
  {
    ScrollOpsUpToAt(m, idx, hRepeat, frameWidth, miny, maxy, previous,
                    OpsPerChunk(idx) * NumLineChunks(miny, maxy), k);
  }

  /** Four consecutive bytes of a word buffer's image are one word's image. */
  lemma WordsLeSlice(ws: seq<bv32>, j: nat)
    requires j < |ws|
    ensures WordsLe(ws)[4 * j..4 * j + 4] == WordLe(ws[j])
  {
    assert WordsLe(ws)[4 * j..4 * j + 4][0] == ByteOf(ws[j], 0);
  }

  /** Transfer k of ops is a write whose bytes from 4 * j on are word w,
      landing at table slot 7 + y. */
  predicate WritesLineWord(ops: seq<BusOp>, k: nat, j: nat, y: int, w: bv32)
  {
    k < |ops| && ops[k].RamWrite? && 4 * j + 4 <= |ops[k].data| &&
    Wrap32(ops[k].addr + 4 * j) == Wrap32(4 * (7 + y)) &&
    ops[k].data[4 * j..4 * j + 4] == WordLe(w)
  }

  /** Every line in [miny, maxy) gets its own scanline word: the write of
      its chunk covers table slot 7 + y, and the word stored there is the
      scanline word of line y. */
  lemma ScrollIdxCoversLine(m: Mode, idx: int, hRepeat: nat, frameWidth: nat, miny: int, maxy: int,
                            previous: seq<bv32>, y: int)
    requires hRepeat < 256
    requires idx < 0 ==> |previous| >= maxy - miny
    requires miny <= y < maxy
    ensures var c := (y - miny) / LINE_CHUNK;
            var j := (y - miny) % LINE_CHUNK;
            var k := OpsPerChunk(idx) * c + OpsPerChunk(idx) - 1;
            var ops := ScrollIdxOps(m, idx, hRepeat, frameWidth, miny, maxy, previous);
            WritesLineWord(ops, k, j, y, ScanlineWord(m, idx, hRepeat, y, frameWidth, if idx >= 0 then 0 else previous[y - miny]))
  {
    LineChunk(miny, maxy, y, OpsPerChunk(idx));
    ChunkCoversLine(m, idx, hRepeat, frameWidth, miny, maxy, previous, (y - miny) / LINE_CHUNK, (y - miny) % LINE_CHUNK, y);
  }

  /** ScrollIdxCoversLine for line y given as slot j of chunk c. */
  lemma ChunkCoversLine(m: Mode, idx: int, hRepeat: nat, frameWidth: nat, miny: int, maxy: int,
                        previous: seq<bv32>, c: nat, j: nat, y: int)
    requires hRepeat < 256 && c < NumLineChunks(miny, maxy) && j < ChunkLines(miny, maxy, c)
    requires idx < 0 ==> |previous| >= maxy - miny
    requires miny + LINE_CHUNK * c + j == y
    ensures var k := OpsPerChunk(idx) * c + OpsPerChunk(idx) - 1;
            var ops := ScrollIdxOps(m, idx, hRepeat, frameWidth, miny, maxy, previous);
            WritesLineWord(ops, k, j, y, ScanlineWord(m, idx, hRepeat, y, frameWidth, if idx >= 0 then 0 else previous[y - miny]))
  {
    ChunkWrite(m, idx, hRepeat, frameWidth, miny, maxy, previous, c);
    var ws := ChunkWords(m, idx, hRepeat, frameWidth, miny, maxy, previous, c);
    WordsLeSlice(ws, j);
    ChunkWordAt(m, idx, hRepeat, frameWidth, miny, maxy, previous, c, j, y);
    ChunkSlotAddress(miny, c, j, y);
  }

  /** The last transfer of chunk c is the write of its words. */
  lemma ChunkWrite(m: Mode, idx: int, hRepeat: nat, frameWidth: nat, miny: int, maxy: int,
                   previous: seq<bv32>, c: nat)
    requires hRepeat < 256 && c < NumLineChunks(miny, maxy)
    requires idx < 0 ==> |previous| >= maxy - miny
    ensures var k := OpsPerChunk(idx) * c + OpsPerChunk(idx) - 1;
            k < |ScrollIdxOps(m, idx, hRepeat, frameWidth, miny, maxy, previous)| &&
            ScrollIdxOps(m, idx, hRepeat, frameWidth, miny, maxy, previous)[k] ==
              RamWrite(ChunkAddress(miny, c), WordsLe(ChunkWords(m, idx, hRepeat, frameWidth, miny, maxy, previous, c)))
  {
    var p := OpsPerChunk(idx);
    var n := NumLineChunks(miny, maxy);
    var k := p * c + p - 1;
    if p == 2 {
      assert k < 2 * n && k / 2 == c && k % 2 == 1;
    }
    ScrollIdxOpsAt(m, idx, hRepeat, frameWidth, miny, maxy, previous, k);
  }

  lemma ChunkWordAt(m: Mode, idx: int, hRepeat: nat, frameWidth: nat, miny: int, maxy: int,
                    previous: seq<bv32>, c: nat, j: nat, y: int)
    requires hRepeat < 256 && c < NumLineChunks(miny, maxy) && j < ChunkLines(miny, maxy, c)
    requires idx < 0 ==> |previous| >= maxy - miny
    requires miny + LINE_CHUNK * c + j == y
    ensures ChunkWords(m, idx, hRepeat, frameWidth, miny, maxy, previous, c)[j] ==
              ScanlineWord(m, idx, hRepeat, y, frameWidth, if idx >= 0 then 0 else previous[y - miny])
  {
  }

  /** The chunk, slot and transfer that line y falls in. */
  lemma LineChunk(miny: int, maxy: int, y: int, p: nat)
    requires miny <= y < maxy && (p == 1 || p == 2)
    ensures var c := (y - miny) / LINE_CHUNK;
            var j := (y - miny) % LINE_CHUNK;
            var k := p * c + p - 1;
            c < NumLineChunks(miny, maxy) && j < ChunkLines(miny, maxy, c) &&
            miny + LINE_CHUNK * c + j == y &&
            k < p * NumLineChunks(miny, maxy) && k / p == c && k % p == p - 1
  {
    var c := (y - miny) / LINE_CHUNK;
    var j := (y - miny) % LINE_CHUNK;
    var n := NumLineChunks(miny, maxy);
    assert y - miny == LINE_CHUNK * c + j;
    assert c < n;
    assert j < ChunkLines(miny, maxy, c);
    if p == 2 {
      var k := 2 * c + 1;
      assert k < 2 * n;
      assert k / 2 == c && k % 2 == 1;
    }
  }

  lemma ChunkSlotAddress(miny: int, c: nat, j: nat, y: int)
    requires miny + LINE_CHUNK * c + j == y
    ensures Wrap32(ChunkAddress(miny, c) + 4 * j) == Wrap32(4 * (7 + y))
  {
    Wrap32Add(4 * (7 + miny) + 4 * LINE_CHUNK * c, 4 * j);
  }

  /** Every sprite slot gets its table entry: entry i lands at word i of the
      sprite table and holds the format and that slot's address. */
  lemma SpriteTableCoversSlot(m: Mode, displayHeight: nat, i: nat)
    requires i < MAX_NUM_SPRITES
    ensures var op := SpriteTableOps(m, displayHeight)[i / 32];
            op.RamWrite? && |op.data| == 128 &&
            op.addr + 4 * (i % 32) == SpriteTableAddress(displayHeight) + 4 * i &&
            op.data[4 * (i % 32)..4 * (i % 32) + 4] == WordLe(Word(SpriteTableWord(m, i)))
  {
    var c := i / 32;
    var r := i % 32;
    assert i == 32 * c + r;
    var ws := SpriteTableChunk(m, c);
    assert SpriteTableOps(m, displayHeight)[c] == RamWrite(SpriteTableAddress(displayHeight) + 128 * c, WordsLe(ws));
    WordsLeSlice(ws, r);
    assert ws[r] == Word(SpriteTableWord(m, i));
  }

  /** set_mode clears all 80 displayed sprites. */
  function ClearAllOps(): (ops: seq<BusOp>)
    ensures |ops| == MAX_DISPLAYED_SPRITES
    ensures forall i :: 0 <= i < |ops| ==> ops[i] == I2cWrite(i, CLEAR_SPRITE_RECORD)
  {
    seq(MAX_DISPLAYED_SPRITES, i requires 0 <= i < MAX_DISPLAYED_SPRITES => I2cWrite(i, CLEAR_SPRITE_RECORD))
  }

  /** What set_mode sends once the mode is accepted. */
  function SetModeOps(m: Mode, hRepeat: nat, frameWidth: nat, displayHeight: nat): seq<BusOp>
    requires hRepeat < 256
  {
    ScrollIdxOps(m, 0, hRepeat, frameWidth, 0, displayHeight, []) + SpriteTableOps(m, displayHeight) + ClearAllOps()
  }

  /** What write_header sends for one bank. */
  function HeaderOps(m: Mode, displayWidth: nat, displayHeight: nat, frameWidth: nat,
                     hRepeat: nat, vRepeat: nat, bank: nat): seq<BusOp>
    requires hRepeat < 256
  {
    [RamWrite(0, WordsLe(PreambleWords(displayWidth, displayHeight, hRepeat, vRepeat, bank)))] +
    ScrollIdxOps(m, 0, hRepeat, frameWidth, 0, displayHeight, []) +
    SpriteTableOps(m, displayHeight)
  }

  /** What a successful init sends: a header into each PSRAM bank (with the
      mode the object had before), bank 0 selected again, the resolution
      and start registers, then set_mode's transfers for the new mode. */
  function InitOps(oldMode: Mode, m: Mode, displayWidth: nat, displayHeight: nat, frameWidth: nat,
                   hRepeat: nat, vRepeat: nat, r: Resolution, maxCompatibility: bool): seq<BusOp>
    requires hRepeat < 256
  {
    StartOps(oldMode, displayWidth, displayHeight, frameWidth, hRepeat, vRepeat, r, maxCompatibility) +
    SetModeOps(m, hRepeat, frameWidth, displayHeight)
  }

  /** init up to the start register: both headers, then the resolution
      and start registers. */
  function StartOps(oldMode: Mode, displayWidth: nat, displayHeight: nat, frameWidth: nat,
                    hRepeat: nat, vRepeat: nat, r: Resolution, maxCompatibility: bool): seq<BusOp>
    requires hRepeat < 256
  {
    BothHeaderOps(oldMode, displayWidth, displayHeight, frameWidth, hRepeat, vRepeat) +
    [I2cWrite(I2C_REG_SET_RES, [ResModeByte(r, maxCompatibility)]), I2cWrite(I2C_REG_START, [1])]
  }

  /** The header writes of init, bank 0 selected again afterwards. */
  function BothHeaderOps(m: Mode, displayWidth: nat, displayHeight: nat, frameWidth: nat,
                         hRepeat: nat, vRepeat: nat): seq<BusOp>
    requires hRepeat < 256
  {
    [RamSelect(0)] + HeaderOps(m, displayWidth, displayHeight, frameWidth, hRepeat, vRepeat, 0) +
    [RamSelect(1)] + HeaderOps(m, displayWidth, displayHeight, frameWidth, hRepeat, vRepeat, 1) +
    [RamSelect(0)]
  }

  // ---------------------------------------------------------------------
  // write(RGB888): a span of 24-bit pixels from a buffer of 80 pixels
  // ---------------------------------------------------------------------

  /** The value buffer holds 60 words, that is 80 pixels or 240 bytes. */
  const RGB888_VALS_PIXELS: nat := 80
  const RGB888_CHUNK_BYTES: nat := 240

  /** m groups of three words, each holding four pixels of colour c. */
  function Rgb888Fill(c: bv32, m: nat): (ws: seq<bv32>)
    ensures |ws| == 3 * m
  {
    if m == 0 then [] else Rgb888Fill(c, m - 1) + Rgb888Words(c)
  }

  /** The groups of four pixels the first loop of write(RGB888) fills. */
  function Rgb888Groups(len: nat): (g: nat)
    ensures 12 * g >= 3 * Min(len, RGB888_VALS_PIXELS)
    ensures g <= 20
  {
    (Min(len, RGB888_VALS_PIXELS) + 3) / 4
  }

  function NumRgb888Chunks(len: nat): (n: nat)
    ensures len > 0 ==> RGB888_CHUNK_BYTES * (n - 1) < 3 * len <= RGB888_CHUNK_BYTES * n
    ensures len == 0 ==> n == 0
  {
    (3 * len + RGB888_CHUNK_BYTES - 1) / RGB888_CHUNK_BYTES
  }

  function Rgb888ChunkBytes(len: nat, k: nat): (n: nat)
    requires k < NumRgb888Chunks(len)
    ensures 0 < n <= RGB888_CHUNK_BYTES && n <= 12 * Rgb888Groups(len)
  {
    Min(RGB888_CHUNK_BYTES, 3 * len - RGB888_CHUNK_BYTES * k)
  }

  /** The writes of write(address, len, RGB888 colour). */
  function Rgb888SpanOps(address: nat, len: nat, c: bv32): (ops: seq<BusOp>)
    ensures |ops| == NumRgb888Chunks(len)
  {
    seq(NumRgb888Chunks(len), k requires 0 <= k < NumRgb888Chunks(len) =>
      RamWrite(Wrap32(address + RGB888_CHUNK_BYTES * k),
               WordsLe(Rgb888Fill(c, Rgb888Groups(len)))[..Rgb888ChunkBytes(len, k)]))
  }

  /** The first loop of write(RGB888): groups of four pixels go into the
      value buffer until it holds 80 pixels or len of them. */
  method FillRgb888(len: nat, c: bv32) returns (vals: seq<bv32>)
    ensures vals == Rgb888Fill(c, Rgb888Groups(len))
  {
    vals := [];
    var i := 0;
    ghost var g: nat := 0;
    while i < RGB888_VALS_PIXELS && i < len
      invariant i == 4 * g && g <= 20
      invariant i < Min(len, RGB888_VALS_PIXELS) + 4
      invariant vals == Rgb888Fill(c, g)
    {
      vals := vals + Rgb888Words(c);
      i := i + 4;
      g := g + 1;
    }
    GroupsOf(Min(len, RGB888_VALS_PIXELS), g);
  }

  /** The number of groups of four that first reach n. */
  lemma GroupsOf(n: nat, g: nat)
    requires n <= 4 * g < n + 4
    ensures g == (n + 3) / 4
  {
  }

  lemma WordsLeConcatAt(a: seq<bv32>, b: seq<bv32>, t: nat)
    requires 4 * |a| <= t < 4 * (|a| + |b|)
    ensures WordsLe(a + b)[t] == WordsLe(b)[t - 4 * |a|]
  {
    assert (t - 4 * |a|) / 4 == t / 4 - |a| && (t - 4 * |a|) % 4 == t % 4;
  }

  lemma WordsLePrefixAt(a: seq<bv32>, b: seq<bv32>, t: nat)
    requires t < 4 * |a|
    ensures WordsLe(a + b)[t] == WordsLe(a)[t]
  {
  }

  /** The image of m groups repeats the colour's three bytes, low first. */
  lemma {:induction false} Rgb888FillPattern(c: bv32, m: nat, t: nat)
    requires c >> 24 == 0 && t < 12 * m
    ensures WordsLe(Rgb888Fill(c, m))[t] == ByteOf(c, t % 3)
  {
    var a := Rgb888Fill(c, m - 1);
    var b := Rgb888Words(c);
    if t < 12 * (m - 1) {
      WordsLePrefixAt(a, b, t);
      Rgb888FillPattern(c, m - 1, t);
    } else {
      var s := t - 12 * (m - 1);
      WordsLeConcatAt(a, b, t);
      Rgb888WordsAt(c, s);
      Mod3Shift(s, 4 * (m - 1));
    }
  }

  lemma Mod3Shift(s: nat, j: nat)
    ensures (s + 3 * j) % 3 == s % 3
  {
  }

  lemma Rgb888WordsAt(c: bv32, s: nat)
    requires c >> 24 == 0 && s < 12
    ensures WordsLe(Rgb888Words(c))[s] == ByteOf(c, s % 3)
  {
    Rgb888WordsPattern(c);
    Repeat3At(ByteOf(c, 0), ByteOf(c, 1), ByteOf(c, 2), s);
  }

  /** Position s of four repetitions of (a, b, c). */
  lemma Repeat3At<T>(a: T, b: T, c: T, s: nat)
    requires s < 12
    ensures [a, b, c, a, b, c, a, b, c, a, b, c][s] == (if s % 3 == 0 then a else if s % 3 == 1 then b else c)
  {
    if s < 6 {
      if s < 3 {
      } else {
      }
    } else {
      if s < 9 {
      } else {
      }
    }
  }

  /** write(RGB888) covers exactly 3 * len bytes from the address on, in
      chunks of at most 240 consecutive bytes, each byte holding red, green
      or blue of the colour in the repeating order (low byte first). */
  lemma Rgb888SpanCovers(address: nat, len: nat, c: bv32, k: nat, t: nat)
    requires c >> 24 == 0 && k < NumRgb888Chunks(len)
    ensures var op := Rgb888SpanOps(address, len, c)[k];
            op.RamWrite? && op.addr == Wrap32(address + RGB888_CHUNK_BYTES * k) &&
            RGB888_CHUNK_BYTES * k + |op.data| <= 3 * len &&
            (k + 1 < NumRgb888Chunks(len) ==> |op.data| == RGB888_CHUNK_BYTES) &&
            (k + 1 == NumRgb888Chunks(len) ==> RGB888_CHUNK_BYTES * k + |op.data| == 3 * len) &&
            (t < |op.data| ==> op.data[t] == ByteOf(c, (RGB888_CHUNK_BYTES * k + t) % 3))
  {
    var n := Rgb888ChunkBytes(len, k);
    if t < n {
      Rgb888FillPattern(c, Rgb888Groups(len), t);
      Mod3Shift(t, 80 * k);
    }
  }

  // ---------------------------------------------------------------------
  // The pixel buffer
  // ---------------------------------------------------------------------

  const PIXEL_BUFFER_LEN_IN_WORDS: nat := 32

  /** The coalescing test of write_pixel and write_palette_pixel: same row,
      next column. */
  predicate AppendsAsWritten(locX: int, locY: int, n: int, x: int, y: int)
  {
    locY == y && locX + n == x
  }

  /** The test as intended: a run is pending (its row is not the -1
      sentinel) and the pixel is its next one. */
  predicate Appends(locX: int, locY: int, n: int, x: int, y: int)
  {
    locY != -1 && AppendsAsWritten(locX, locY, n, x, y)
  }

  /** After a full run is flushed the row is set to -1 but the count stays
      at 64; a pixel on row -1 at the next column then passes the test as
      written and would store pixel 64, in word 32 of the 32-word buffer. */
  lemma SentinelReopensFullRun(locX: int)
    ensures AppendsAsWritten(locX, -1, 2 * PIXEL_BUFFER_LEN_IN_WORDS, locX + 2 * PIXEL_BUFFER_LEN_IN_WORDS, -1)
    ensures (2 * PIXEL_BUFFER_LEN_IN_WORDS) / 2 == PIXEL_BUFFER_LEN_IN_WORDS
    ensures !Appends(locX, -1, 2 * PIXEL_BUFFER_LEN_IN_WORDS, locX + 2 * PIXEL_BUFFER_LEN_IN_WORDS, -1)
  {
  }

  /** With the intended test, an appended pixel always has a slot: a pending
      run is never full. */
  lemma AppendStaysInBuffer(locX: int, locY: int, n: int, x: int, y: int, is16: bool)
    requires locY != -1 ==> 1 <= n < (if is16 then 2 else 4) * PIXEL_BUFFER_LEN_IN_WORDS
    requires Appends(locX, locY, n, x, y)
    ensures 0 <= (if is16 then n / 2 else n / 4) < PIXEL_BUFFER_LEN_IN_WORDS
  {
  }

  /** The bytes of a word from byte k up are zero. */
  predicate ClearFrom(w: bv32, k: nat)
    requires k < 4
  {
    forall j :: k <= j < 4 ==> ByteOf(w, j) == 0
  }

  /** Storing 16-bit pixel m of a word: the first one sets the word, the
      second is or-ed into the upper half. */
  function InsertHalf(w: bv32, c: bv16, m: nat): bv32
  {
    if m == 1 then w | ((c as bv32) << 16) else c as bv32
  }

  lemma Put16High(w: bv32, c: bv16)
    requires w >> 16 == 0
    ensures Half(InsertHalf(w, c, 1), 0) == Half(w, 0)
    ensures Half(InsertHalf(w, c, 1), 1) == c
  {
  }

  lemma Put16Low(w: bv32, c: bv16)
    ensures Half(InsertHalf(w, c, 0), 0) == c && InsertHalf(w, c, 0) >> 16 == 0
  {
  }

  /** Storing pixel n of a 16-bit run as write_pixel does appends it to the
      run's pixels and keeps the free upper half clear. */
  lemma Append16(before: seq<bv32>, n: nat, c: bv16, after: seq<bv32>)
    requires |before| == PIXEL_BUFFER_LEN_IN_WORDS && n < 2 * PIXEL_BUFFER_LEN_IN_WORDS
    requires n % 2 == 1 ==> before[n / 2] >> 16 == 0
    requires after == before[n / 2 := InsertHalf(before[n / 2], c, n % 2)]
    ensures WordHalves(after, n + 1) == WordHalves(before, n) + [c]
    ensures (n + 1) % 2 == 1 ==> after[(n + 1) / 2] >> 16 == 0
  {
    var i, m := n / 2, n % 2;
    if m == 1 {
      Put16High(before[i], c);
    } else {
      Put16Low(before[i], c);
    }
    HalvesKeepPrefix(before, i, after[i], m);
    assert WordHalves(after, n + 1)[n] == c;
    HalvesAppendAt(after, before, n, c);
  }

  /** Replacing word i by one with the same low half when m is 1 keeps the
      first 2i + m halves. */
  lemma HalvesKeepPrefix(ws: seq<bv32>, i: nat, w: bv32, m: nat)
    requires i < |ws| && m < 2
    requires m == 1 ==> Half(w, 0) == Half(ws[i], 0)
    ensures WordHalves(ws[i := w], 2 * i + m) == WordHalves(ws, 2 * i + m)
  {
    var a, b := WordHalves(ws[i := w], 2 * i + m), WordHalves(ws, 2 * i + m);
    forall k | 0 <= k < 2 * i + m
      ensures a[k] == b[k]
    {
      if k / 2 == i {
        assert m == 1 && k % 2 == 0;
      }
    }
  }

  lemma HalvesAppendAt(a: seq<bv32>, b: seq<bv32>, n: nat, c: bv16)
    requires n < 2 * |a| && n <= 2 * |b|
    requires WordHalves(a, n) == WordHalves(b, n) && WordHalves(a, n + 1)[n] == c
    ensures WordHalves(a, n + 1) == WordHalves(b, n) + [c]
  {
    assert WordHalves(a, n + 1) == WordHalves(a, n) + [c];
  }

  /** Storing pixel k of a word: the first one sets the word, later ones
      are or-ed in at bit 8k. */
  function InsertByte(w: bv32, c: bv8, k: nat): bv32
    requires k < 4
  {
    if k == 0 then c as bv32
    else if k == 1 then w | ((c as bv32) << 8)
    else if k == 2 then w | ((c as bv32) << 16)
    else w | ((c as bv32) << 24)
  }

  /** InsertByte is write_palette_pixel's shift by (k & 3) << 3. */
  lemma InsertByteIsShift(w: bv32, c: bv8, k: bv32)
    requires 1 <= k < 4
    ensures InsertByte(w, c, k as nat) == w | ((c as bv32) << ((k & 3) << 3))
  {
    if k == 1 {
    } else if k == 2 {
    } else {
    }
  }

  lemma Put8At0(w: bv32, c: bv8)
    ensures ByteOf(InsertByte(w, c, 0), 0) == c
    ensures ByteOf(InsertByte(w, c, 0), 1) == 0
    ensures ByteOf(InsertByte(w, c, 0), 2) == 0
    ensures ByteOf(InsertByte(w, c, 0), 3) == 0
  {
  }

  lemma Keep1(w: bv32, c: bv8)
    ensures ByteOf(InsertByte(w, c, 1), 0) == ByteOf(w, 0)
  {
  }

  lemma Set1(w: bv32, c: bv8)
    requires ByteOf(w, 1) == 0 && ByteOf(w, 2) == 0 && ByteOf(w, 3) == 0
    ensures ByteOf(InsertByte(w, c, 1), 1) == c
    ensures ByteOf(InsertByte(w, c, 1), 2) == 0
    ensures ByteOf(InsertByte(w, c, 1), 3) == 0
  {
  }

  lemma Keep2(w: bv32, c: bv8)
    ensures ByteOf(InsertByte(w, c, 2), 0) == ByteOf(w, 0)
    ensures ByteOf(InsertByte(w, c, 2), 1) == ByteOf(w, 1)
  {
  }

  lemma Set2(w: bv32, c: bv8)
    requires ByteOf(w, 2) == 0 && ByteOf(w, 3) == 0
    ensures ByteOf(InsertByte(w, c, 2), 2) == c
    ensures ByteOf(InsertByte(w, c, 2), 3) == 0
  {
  }

  lemma Keep3(w: bv32, c: bv8)
    ensures ByteOf(InsertByte(w, c, 3), 0) == ByteOf(w, 0)
    ensures ByteOf(InsertByte(w, c, 3), 1) == ByteOf(w, 1)
    ensures ByteOf(InsertByte(w, c, 3), 2) == ByteOf(w, 2)
  {
  }

  lemma Set3(w: bv32, c: bv8)
    requires ByteOf(w, 3) == 0
    ensures ByteOf(InsertByte(w, c, 3), 3) == c
  {
  }

  /** Storing byte k of a word sets that byte, keeps the ones below and
      leaves the ones above clear. */
  lemma Put8(w: bv32, c: bv8, k: nat)
    requires k < 4 && (k != 0 ==> ClearFrom(w, k))
    ensures forall j :: 0 <= j < k ==> ByteOf(InsertByte(w, c, k), j) == ByteOf(w, j)
    ensures ByteOf(InsertByte(w, c, k), k) == c
    ensures k < 3 ==> ClearFrom(InsertByte(w, c, k), k + 1)
  {
    if k == 0 {
      Put8At0(w, c);
    } else if k == 1 {
      assert ByteOf(w, 1) == 0 && ByteOf(w, 2) == 0 && ByteOf(w, 3) == 0;
      Keep1(w, c);
      Set1(w, c);
    } else if k == 2 {
      assert ByteOf(w, 2) == 0 && ByteOf(w, 3) == 0;
      Keep2(w, c);
      Set2(w, c);
    } else {
      assert ByteOf(w, 3) == 0;
      Keep3(w, c);
      Set3(w, c);
    }
  }

  /** Storing pixel n of a palette run appends it to the run's bytes. */
  lemma Append8(before: seq<bv32>, n: nat, c: bv8, after: seq<bv32>)
    requires |before| == PIXEL_BUFFER_LEN_IN_WORDS && n < 4 * PIXEL_BUFFER_LEN_IN_WORDS
    requires n % 4 != 0 ==> ClearFrom(before[n / 4], n % 4)
    requires after == before[n / 4 := InsertByte(before[n / 4], c, n % 4)]
    ensures WordsLe(after)[..n + 1] == WordsLe(before)[..n] + [c]
    ensures (n + 1) % 4 != 0 ==> ClearFrom(after[(n + 1) / 4], (n + 1) % 4)
  {
    var i, m := n / 4, n % 4;
    Put8(before[i], c, m);
    WordsLeKeepsPrefix(before, i, after[i], m);
    AppendAt(WordsLe(after), WordsLe(before), n, c);
    if (n + 1) % 4 != 0 {
      assert (n + 1) / 4 == i && (n + 1) % 4 == m + 1;
    }
  }

  /** Replacing word i by one that agrees on its first m bytes keeps the
      image's first 4i + m bytes. */
  lemma WordsLeKeepsPrefix(ws: seq<bv32>, i: nat, w: bv32, m: nat)
    requires i < |ws| && m < 4
    requires forall j :: 0 <= j < m ==> ByteOf(w, j) == ByteOf(ws[i], j)
    ensures WordsLe(ws[i := w])[..4 * i + m] == WordsLe(ws)[..4 * i + m]
  {
    forall k | 0 <= k < 4 * i + m
      ensures WordsLe(ws[i := w])[k] == WordsLe(ws)[k]
    {
      if k / 4 != i {
        WordsLeUpdate(ws, i, w, k);
      } else {
        assert k % 4 < m;
      }
    }
  }

  lemma AppendAt(a: seq<bv8>, b: seq<bv8>, n: nat, c: bv8)
    requires n < |a| && n <= |b| && a[..n] == b[..n] && a[n] == c
    ensures a[..n + 1] == b[..n] + [c]
  {
    assert a[..n + 1] == a[..n] + [a[n]];
  }

  // ---------------------------------------------------------------------
  // Palette entries and the GPIO rules
  // ---------------------------------------------------------------------

  /** The colour an entry of the palette store holds, read back as RGB888. */
  function EntryColour(r: bv8, g: bv8, b: bv8): bv32
  {
    ((r as bv32) << 16) | ((g as bv32) << 8) | (b as bv32)
  }

  /** The colour in slot `slot` of a palette store laid out as R, G, B bytes. */
  function SlotColour(store: seq<bv8>, slot: nat): bv32
    requires 3 * slot + 2 < |store|
  {
    EntryColour(store[3 * slot], store[3 * slot + 1], store[3 * slot + 2])
  }


  /** Slots base .. base + i - 1 of a palette store hold the first i
      colours, masked to 24 bits. */
  ghost predicate SlotsHold(store: seq<bv8>, base: nat, i: nat, colours: seq<bv32>)
    requires i <= |colours| && 3 * (base + i) <= |store|
  {
    forall t :: base <= t < base + i ==> SlotColour(store, t) == colours[t - base] & 0xFF_FFFF
  }

  /** Every palette slot outside base .. base + i - 1 is as in orig. */
  ghost predicate SlotsKept(store: seq<bv8>, orig: seq<bv8>, base: nat, i: nat)
    requires |store| == |orig| == NUM_PALETTES * PALETTE_SIZE * 3
  {
    forall t :: 0 <= t < NUM_PALETTES * PALETTE_SIZE && !(base <= t < base + i) ==>
      SlotColour(store, t) == SlotColour(orig, t)
  }

  /** Storing colour i in slot base + i, and nothing else, extends both. */
  lemma SlotsStep(pre: seq<bv8>, post: seq<bv8>, orig: seq<bv8>, base: nat, i: nat, colours: seq<bv32>)
    requires |pre| == |post| == |orig| == NUM_PALETTES * PALETTE_SIZE * 3
    requires i < |colours| && base + i < NUM_PALETTES * PALETTE_SIZE
    requires SlotsHold(pre, base, i, colours) && SlotsKept(pre, orig, base, i)
    requires SlotColour(post, base + i) == colours[i] & 0xFF_FFFF
    requires forall t :: 0 <= t < NUM_PALETTES * PALETTE_SIZE && t != base + i ==>
               SlotColour(post, t) == SlotColour(pre, t)
    ensures SlotsHold(post, base, i + 1, colours) && SlotsKept(post, orig, base, i + 1)
  {
    forall t | base <= t < base + i + 1
      ensures SlotColour(post, t) == colours[t - base] & 0xFF_FFFF
    {
      if t < base + i {
        assert SlotColour(post, t) == SlotColour(pre, t);
      } else {
        assert t - base == i;
      }
    }
  }

  /** Storing (R, G, B) and reading it back gives the colour's low 24 bits. */
  lemma EntryRoundTrip(c: bv32)
    ensures EntryColour(((c >> 16) & 0xFF) as bv8, ((c >> 8) & 0xFF) as bv8, (c & 0xFF) as bv8) == c & 0xFF_FFFF
  {
  }

  /** The GPU's GPIO 29 modes 0-3 are inputs, pull-up in bit 0 and
      pull-down in bit 1. */
  predicate IsInputMode(v: bv8)
  {
    v <= 3
  }

  /** The mode byte set_gpio_29_dir writes, or None when it writes nothing. */
  function Gpio29DirMode(output: bool, current: bv8): Option<bv8>
  {
    if output then Some(5)
    else if current > 3 then Some(0)
    else None
  }

  /** The GPIO 29 mode after set_gpio_29_dir is an input iff input was asked
      for; an input keeps its pulls and a new input has none. */
  lemma Gpio29DirResult(output: bool, current: bv8)
    ensures var after := match Gpio29DirMode(output, current) { case Some(v) => v case None => current };
            (IsInputMode(after) <==> !output) &&
            (!output && IsInputMode(current) ==> after == current && Gpio29DirMode(output, current).None?) &&
            (!output && !IsInputMode(current) ==> after == 0)
  {
  }

  /** The mode byte set_gpio_29_pull_up (bit 0) or _pull_down (bit 1)
      writes, or None when the pin is not an input. */
  function Gpio29PullMode(current: bv8, bit: nat, on: bool): (r: Option<bv8>)
    requires bit < 2
    ensures r.None? <==> !IsInputMode(current)
  {
    if current > 3 then None
    else if on then Some(current | ((1 as bv8) << bit))
    else Some(current & !((1 as bv8) << bit))
  }

  /** A pull change keeps the pin an input, sets the one pull bit as asked
      and keeps the other. */
  lemma Gpio29PullResult(current: bv8, bit: nat, on: bool)
    requires bit < 2 && IsInputMode(current)
    ensures var v := Gpio29PullMode(current, bit, on).value;
            IsInputMode(v) && (Bit(v, bit) <==> on) && (Bit(v, 1 - bit) <==> Bit(current, 1 - bit))
  {
    if bit == 0 {
      assert IsInputMode(Gpio29PullMode(current, 0, on).value);
    } else {
      assert IsInputMode(Gpio29PullMode(current, 1, on).value);
    }
  }

  /** i2c_modify_bit: the register value with bit `bit` set or cleared, in
      unsigned arithmetic truncated to the 8-bit register. */
  function ModifyBit(val: bv8, bit: nat, enable: bool): bv8
    requires bit < 32
  {
    var m := (1 as bv32) << bit;
    var v := val as bv32;
    ((if enable then v | m else v & !m) & 0xFF) as bv8
  }

  /** i2c_modify_bit changes exactly the one bit it names; a bit number past
      the register's width changes nothing. */
  lemma ModifyBitExact(val: bv8, bit: nat, enable: bool, k: nat)
    requires bit < 32 && k < 8
    ensures k == bit ==> (Bit(ModifyBit(val, bit, enable), k) <==> enable)
    ensures k != bit ==> (Bit(ModifyBit(val, bit, enable), k) <==> Bit(val, k))
    ensures bit >= 8 ==> ModifyBit(val, bit, enable) == val
  {
    if bit >= 8 {
      ModifyBitHigh(val, bit, enable);
    } else {
      ModifyBitLow(val, bit, enable, k);
    }
  }

  lemma ModifyBitHigh(val: bv8, bit: nat, enable: bool)
    requires 8 <= bit < 32
    ensures ModifyBit(val, bit, enable) == val
  {
    var m := (1 as bv32) << bit;
    assert m & 0xFF == 0;
  }

  lemma ModifyBitLow(val: bv8, bit: nat, enable: bool, k: nat)
    requires bit < 8 && k < 8
    ensures k == bit ==> (Bit(ModifyBit(val, bit, enable), k) <==> enable)
    ensures k != bit ==> (Bit(ModifyBit(val, bit, enable), k) <==> Bit(val, k))
  {
  }

  /** The transfers of the first c + 1 chunks are those of the first c,
      then chunk c's read back (negative index only) and its write. */
  lemma ScrollOpsStep(m: Mode, idx: int, hRepeat: nat, frameWidth: nat, miny: int, maxy: int,
                      previous: seq<bv32>, c: nat)
    requires hRepeat < 256 && c < NumLineChunks(miny, maxy)
    requires idx < 0 ==> |previous| >= maxy - miny
    ensures var ops := ScrollIdxOps(m, idx, hRepeat, frameWidth, miny, maxy, previous);
            var p := OpsPerChunk(idx);
            var w := RamWrite(ChunkAddress(miny, c), WordsLe(ChunkWords(m, idx, hRepeat, frameWidth, miny, maxy, previous, c)));
            p * (c + 1) <= |ops| &&
            ops[..p * (c + 1)] ==
              ops[..p * c] + (if idx < 0 then [RamRead(ChunkAddress(miny, c), ChunkLines(miny, maxy, c))] else []) + [w]
  {
    var ops := ScrollIdxOps(m, idx, hRepeat, frameWidth, miny, maxy, previous);
    ChunkWrite(m, idx, hRepeat, frameWidth, miny, maxy, previous, c);
    if idx < 0 {
      var k := 2 * c;
      assert k / 2 == c && k % 2 == 0;
      ScrollIdxOpsAt(m, idx, hRepeat, frameWidth, miny, maxy, previous, k);
      assert ops[k] == RamRead(ChunkAddress(miny, c), ChunkLines(miny, maxy, c));
      assert ops[..2 * (c + 1)] == ops[..2 * c] + [ops[k]] + [ops[k + 1]];
    } else {
      assert ops[..c + 1] == ops[..c] + [ops[c]];
    }
  }

  /** The scanline words of one chunk, starting at line i. */
  method BuildChunk(m: Mode, idx: int, hRepeat: nat, frameWidth: nat, miny: int, maxy: int,
                    previous: seq<bv32>, ghost c: nat, i: int) returns (buf: seq<bv32>)
    requires hRepeat < 256 && c < NumLineChunks(miny, maxy) && i == miny + LINE_CHUNK * c
    requires idx < 0 ==> |previous| >= maxy - miny
    ensures buf == ChunkWords(m, idx, hRepeat, frameWidth, miny, maxy, previous, c)
  {
    var maxj := Min(LINE_CHUNK, maxy - i);
    buf := [];
    var j := 0;
    while j < maxj
      invariant 0 <= j <= maxj
      invariant buf == ChunkWords(m, idx, hRepeat, frameWidth, miny, maxy, previous, c)[..j]
    {
      var prev: bv32 := if idx >= 0 then 0 else previous[i - miny + j];
      buf := buf + [ScanlineWord(m, idx, hRepeat, i + j, frameWidth, prev)];
      j := j + 1;
    }
  }

  /** The 32 sprite table words from slot i on. */
  method BuildSpriteTableChunk(m: Mode, i: nat) returns (buf: seq<bv32>)
    requires i % 32 == 0 && i < MAX_NUM_SPRITES
    ensures buf == SpriteTableChunk(m, i / 32)
  {
    ghost var c := i / 32;
    ghost var chunk := SpriteTableChunk(m, c);
    assert 32 * c == i;
    var spriteType := ModeCode(m) * 0x1000_0000;
    buf := [];
    var j := 0;
    while j < 32
      invariant 0 <= j <= 32
      invariant buf == chunk[..j]
    {
      var wn := spriteType + (i + j) * SPRITE_SIZE + SPRITE_BASE_ADDRESS;
      assert wn == SpriteTableWord(m, 32 * c + j);
      var w := Word(wn);
      assert chunk[..j + 1] == chunk[..j] + [w];
      buf := buf + [w];
      j := j + 1;
    }
    assert chunk[..32] == chunk;
  }

  /** What define_sprite_internal sends is its header write followed by the
      row writes. */
  lemma DefineOpsShape(d: SpriteData, width: nat, idx: nat, rows: nat, ops: seq<BusOp>)
    requires |ops| == rows + 1
    requires forall i :: 0 <= i < rows ==> ops[i + 1] == RowWrite(d, width, idx, rows, i)
    ensures ops == [ops[0]] + RowWrites(d, width, idx, rows, rows)
  {
    assert ops[1..] == RowWrites(d, width, idx, rows, rows);
  }

  lemma SeqAssoc3<T>(s: seq<T>, a: seq<T>, b: seq<T>, c: seq<T>)
    ensures s + a + b + c == s + (a + b + c)
  {
  }

  lemma SeqAssoc2<T>(s: seq<T>, a: seq<T>, b: seq<T>)
    ensures s + a + b == s + (a + b)
  {
  }

  /** The timing part of init: doubling the pixels of narrow displays and
      the lines of short ones, then looking the doubled size up in the
      resolution table. RGB888 without horizontal doubling is refused before
      the vertical repeat is chosen. */
  method ChooseTiming(dw: nat, dh: nat, m: Mode) returns (h: nat, v: nat, res: Option<Resolution>)
    ensures h == HRepeatFor(dw, dh)
    ensures v == (if RejectsRgb888(dw, dh, m) then 1 else VRepeatFor(dh))
    ensures res == InitResolution(dw, dh, m)
  {
    h, v := 1, 1;
    res := None;
    var fullWidth := dw;
    var fullHeight := dh;
    if dw < 640 || (dw == 640 && (dh == 360 || dh == 720)) {
      h := 2;
      fullWidth := fullWidth * 2;
    }
    if m == ModeRgb888 && h == 1 {
      return;
    }
    if dh < 400 {
      v := 2;
      fullHeight := fullHeight * 2;
    }
    if fullWidth == 640 {
      res := Some(Res640x480);
    } else if fullWidth == 720 {
      if fullHeight == 480 {
        res := Some(Res720x480);
      } else if fullHeight == 400 {
        res := Some(Res720x400);
      } else if fullHeight == 576 {
        res := Some(Res720x576);
      }
    }
  }

  /** A log that grew by u, then v, then w, ... is the log followed by all of them. */
  lemma ConcatAssoc5<T>(s: seq<T>, a: seq<T>, b: seq<T>, c: seq<T>, d: seq<T>, e: seq<T>)
    ensures s + a + b + c + d + e == s + (a + b + c + d + e)
  {
  }

  /** The one-byte I2C write of a mode byte, when there is one. */
  function WriteIfSome(reg: int, v: Option<bv8>): (ops: seq<BusOp>)
    ensures v.None? ==> ops == []
    ensures v.Some? ==> ops == [I2cWrite(reg, [v.value])]
  {
    match v
    case Some(b) => [I2cWrite(reg, [b])]
    case None => []
  }

  // ---------------------------------------------------------------------
  // Spans written from a caller's buffer
  // ---------------------------------------------------------------------

  /** A span of bytes written in up to two transfers: the first `head`
      bytes on their own (to bring the source pointer to a word boundary),
      then the rest from address + head. */
  function SplitWriteOps(address: nat, bytes: seq<bv8>, head: nat): (ops: seq<BusOp>)
    requires head <= |bytes|
  {
    (if head > 0 then [RamWrite(address, bytes[..head])] else []) +
    (if head < |bytes| then [RamWrite(Wrap32(address + head), bytes[head..])] else [])
  }

  /** The transfers of a split write hold exactly the span's bytes, in
      order, each at its own address: nothing is written twice or left out. */
  lemma SplitWriteCovers(address: nat, bytes: seq<bv8>, head: nat)
    requires address < U32 && head <= |bytes|
    ensures var ops := SplitWriteOps(address, bytes, head);
            (forall i :: 0 <= i < |ops| ==> ops[i].RamWrite? && |ops[i].data| > 0) &&
            (|ops| == 0 <==> |bytes| == 0) &&
            (|ops| > 0 ==> ops[0].addr == address) &&
            (|ops| == 2 ==> ops[1].addr == Wrap32(address + |ops[0].data|)) &&
            (|ops| == 1 ==> ops[0].data == bytes) &&
            (|ops| == 2 ==> ops[0].data + ops[1].data == bytes)
  {
    if 0 < head < |bytes| {
      assert bytes[..head] + bytes[head..] == bytes;
    } else if head == 0 {
      Wrap32Small(address);
    }
  }

  /** The part of a palette span write_palette_pixel_span writes on its own
      when the caller's buffer does not start on a word boundary. */
  function PaletteSpanHead(l: nat, align: nat): (h: nat)
    requires align < 4
    ensures h <= l && h < 4
  {
    if align != 0 && l > 0 then Min(4 - align, l) else 0
  }

  /** The count of bytes the second transfer of write_palette_pixel_span is
      given as written: l less the head in unsigned arithmetic, even when
      the head was cut short by l. */
  function PaletteSpanRestAsWritten(l: nat, align: nat): (n: nat)
    requires l < U32 && align < 4
  {
    if align != 0 && l > 0 then Wrap32(l - (4 - align)) else l
  }

  /** A one-byte span from a buffer one byte past a word boundary: the
      remaining count wraps around to 0xFFFFFFFE, so the second transfer
      asks for nearly 4 GB beyond the one byte given. */
  lemma PaletteSpanUnderflow()
    ensures PaletteSpanRestAsWritten(1, 1) == 0xFFFF_FFFE
    ensures PaletteSpanHead(1, 1) == 1
  {
  }

  /** With the head cut short by l as intended, the two transfers share out
      exactly the l bytes of the span. */
  lemma PaletteSpanSharesOut(l: nat, align: nat)
    requires l < U32 && align < 4
    ensures PaletteSpanHead(l, align) + (l - PaletteSpanHead(l, align)) == l
    ensures l >= 4 ==> PaletteSpanRestAsWritten(l, align) == l - PaletteSpanHead(l, align)
  {
  }

  /** write_pixel_span (16-bit data) as written decrements l for the odd
      first pixel without checking that l is positive: an empty span from
      a buffer not on a word boundary still writes one pixel, and then asks
      for 0xFFFFFFFE bytes. */
  function Span16RestAsWritten(l: nat, misaligned: bool): (n: nat)
    requires l < U32
  {
    if misaligned then Wrap32(l - 1) else l
  }

  lemma Span16Underflow()
    ensures Span16RestAsWritten(0, true) == 0xFFFF_FFFF
    ensures Wrap32(2 * Span16RestAsWritten(0, true)) == 0xFFFF_FFFE
  {
  }

  /** The pixels written on their own before a 16-bit span from a buffer off
      a word boundary, with the emptiness check the other span writers have. */
  function Span16Head(l: nat, misaligned: bool): (h: nat)
    ensures h <= l && h <= 1
  {
    if misaligned && l > 0 then 1 else 0
  }

  /** A RAM write as the RAM driver receives it: an address and a byte
      count. */
  datatype Extent = Extent(addr: nat, count: nat)

  /** The address and byte count of each RAM write of a list of transfers
      (a transfer of another kind counts no bytes). */
  function Extents(ops: seq<BusOp>): (es: seq<Extent>)
    ensures |es| == |ops|
    ensures forall i :: 0 <= i < |ops| && ops[i].RamWrite? ==> es[i] == Extent(ops[i].addr, |ops[i].data|)
  {
    if ops == [] then []
    else [if ops[0].RamWrite? then Extent(ops[0].addr, |ops[0].data|) else Extent(0, 0)] + Extents(ops[1..])
  }

  /** The transfers write_palette_pixel_span (byte data) issues, as
      written: a head of min(4 - align, l) bytes, then l - (4 - align)
      bytes in unsigned arithmetic at address + 4 - align. */
  function PaletteSpanExtentsAsWritten(address: nat, l: nat, align: nat): (es: seq<Extent>)
    requires l < U32 && align < 4
  {
    var split := align != 0 && l > 0;
    var offset := if split then 4 - align else 0;
    var rest := PaletteSpanRestAsWritten(l, align);
    (if split then [Extent(address, Min(offset, l))] else []) +
    (if rest > 0 then [Extent(Wrap32(address + offset), rest)] else [])
  }

  /** The transfers of write_palette_pixel_span as written are those of the
      split write of the l bytes exactly when the head is not cut short by
      l; when it is, a second transfer of nearly 4 GB follows. */
  lemma PaletteSpanExtentsAgree(address: nat, data: seq<bv8>, l: nat, align: nat)
    requires address < U32 && l <= |data| && l < U32 && align < 4
    ensures var intended := Extents(SplitWriteOps(address, data[..l], PaletteSpanHead(l, align)));
            PaletteSpanExtentsAsWritten(address, l, align) == intended <==>
              (align == 0 || l == 0 || l >= 4 - align)
  {
    var intended := Extents(SplitWriteOps(address, data[..l], PaletteSpanHead(l, align)));
    var written := PaletteSpanExtentsAsWritten(address, l, align);
    if align != 0 && 0 < l < 4 - align {
      assert |intended| == 1;
      assert PaletteSpanRestAsWritten(l, align) > 0;
      assert |written| == 2;
    } else if align == 0 || l == 0 {
      Wrap32Small(address);
    }
  }

  /** The transfers write_pixel_span (16-bit data) issues, as written: the
      first pixel on its own when the buffer is off a word boundary, then
      (l - 1) << 1 bytes in unsigned arithmetic, whatever l is. */
  function Span16ExtentsAsWritten(address: nat, l: nat, misaligned: bool): (es: seq<Extent>)
    requires l < U32
  {
    var rest := Span16RestAsWritten(l, misaligned);
    (if misaligned then [Extent(address, 2)] else []) +
    (if rest > 0 then [Extent(Wrap32(address + (if misaligned then 2 else 0)), Wrap32(2 * rest))] else [])
  }

  /** The transfers of write_pixel_span as written are those of the split
      write of the l pixels except for an empty span from a buffer off a
      word boundary, which as written writes one pixel and then asks for
      0xFFFFFFFE bytes. */
  lemma Span16ExtentsAgree(address: nat, data: seq<bv16>, l: nat, misaligned: bool)
    requires address < U32 && l <= |data| && 2 * l < U32
    ensures var intended := Extents(SplitWriteOps(address, HalvesLe(data[..l]), 2 * Span16Head(l, misaligned)));
            Span16ExtentsAsWritten(address, l, misaligned) == intended <==> !(misaligned && l == 0)
    ensures misaligned && l == 0 ==>
              Span16ExtentsAsWritten(address, l, misaligned) == [Extent(address, 2), Extent(Wrap32(address + 2), 0xFFFF_FFFE)]
  {
    var intended := Extents(SplitWriteOps(address, HalvesLe(data[..l]), 2 * Span16Head(l, misaligned)));
    if misaligned && l == 0 {
      assert |intended| == 0;
    } else if !misaligned {
      Wrap32Small(address);
    }
  }

  // ---------------------------------------------------------------------
  // The driver object
  // ---------------------------------------------------------------------

  /** The write coalescing state of the driver: pixel_buffer, the position
      of the run of pixels it holds (row -1 when it holds none) and the
      length of that run. */
  class PixelRun {
    const buffer: array<bv32>
    var locX: int
    var locY: int
    var x: int
    /** Whether the run holds 16-bit pixels (write_pixel) or palette bytes
        (write_palette_pixel). */
    ghost var is16: bool

    /** A run holds 1 to 63 pixels, or 1 to 127 bytes, and the part of its
        last word not yet used is clear, ready to be or-ed into. */
    ghost predicate Valid()
      reads this, buffer
    {
      buffer.Length == PIXEL_BUFFER_LEN_IN_WORDS &&
      (locY != -1 ==>
        if is16 then
          1 <= x < 2 * PIXEL_BUFFER_LEN_IN_WORDS && (x % 2 == 1 ==> buffer[x / 2] >> 16 == 0)
        else
          1 <= x < 4 * PIXEL_BUFFER_LEN_IN_WORDS && (x % 4 != 0 ==> ClearFrom(buffer[x / 4], x % 4)))
    }

    /** The pixels of a pending 16-bit run. */
    ghost function Pending16(): seq<bv16>
      reads this`x, buffer
      requires buffer.Length == PIXEL_BUFFER_LEN_IN_WORDS && 0 <= x <= 2 * PIXEL_BUFFER_LEN_IN_WORDS
    {
      WordHalves(buffer[..], x)
    }

    /** The bytes of a pending palette run. */
    ghost function Pending8(): seq<bv8>
      reads this`x, buffer
      requires buffer.Length == PIXEL_BUFFER_LEN_IN_WORDS && 0 <= x <= 4 * PIXEL_BUFFER_LEN_IN_WORDS
    {
      WordsLe(buffer[..])[..x]
    }

    /** pixel_buffer_location starts at (-1, -1): no run. */
    constructor ()
      ensures Valid() && locX == -1 && locY == -1 && x == 0 && fresh(buffer)
    {
      buffer := new bv32[PIXEL_BUFFER_LEN_IN_WORDS];
      locX, locY, x := -1, -1, 0;
      is16 := true;
    }

    /** The append branch of write_pixel: pixel x goes into the upper half
        of word x / 2 when x is odd, and replaces the word when x is even. */
    method Push16(c: bv16)
      requires Valid() && is16 && locY != -1
      modifies this`x, buffer
      ensures x == old(x) + 1 && x <= 2 * PIXEL_BUFFER_LEN_IN_WORDS
      ensures Pending16() == old(Pending16()) + [c]
      ensures x < 2 * PIXEL_BUFFER_LEN_IN_WORDS ==> Valid()
    {
      ghost var before := buffer[..];
      var n := x;
      var w := InsertHalf(buffer[n / 2], c, n % 2);
      buffer[n / 2] := w;
      assert buffer[..] == before[n / 2 := w];
      Append16(before, n, c, buffer[..]);
      x := n + 1;
    }

    /** The append branch of write_palette_pixel: byte x goes into byte
        x % 4 of word x / 4, replacing the word when it is the first. */
    method Push8(c: bv8)
      requires Valid() && !is16 && locY != -1
      modifies this`x, buffer
      ensures x == old(x) + 1 && x <= 4 * PIXEL_BUFFER_LEN_IN_WORDS
      ensures Pending8() == old(Pending8()) + [c]
      ensures x < 4 * PIXEL_BUFFER_LEN_IN_WORDS ==> Valid()
    {
      ghost var before := buffer[..];
      var n := x;
      var w := InsertByte(buffer[n / 4], c, n % 4);
      buffer[n / 4] := w;
      assert buffer[..] == before[n / 4 := w];
      Append8(before, n, c, buffer[..]);
      x := n + 1;
    }

    /** A new run of one 16-bit pixel at (px, py). */
    method Start16(px: int, py: int, c: bv16)
      requires buffer.Length == PIXEL_BUFFER_LEN_IN_WORDS
      modifies this, buffer
      ensures Valid() && is16 && locX == px && locY == py && x == 1 && Pending16() == [c]
    {
      locX, locY := px, py;
      x := 1;
      buffer[0] := InsertHalf(0, c, 0);
      is16 := true;
      Put16Low(0, c);
      assert Pending16()[0] == Half(buffer[0], 0);
    }

    /** A new run of one palette byte at (px, py). */
    method Start8(px: int, py: int, c: bv8)
      requires buffer.Length == PIXEL_BUFFER_LEN_IN_WORDS
      modifies this, buffer
      ensures Valid() && !is16 && locX == px && locY == py && x == 1 && Pending8() == [c]
    {
      locX, locY := px, py;
      x := 1;
      buffer[0] := c as bv32;
      is16 := false;
      Put8(0, c, 0);
      assert Pending8()[0] == WordsLe(buffer[..])[0];
    }
  }

  class DVDisplay {
    var displayWidth: nat
    var displayHeight: nat
    var frameWidth: nat
    var frameHeight: nat
    var bank: nat
    var hRepeat: nat
    var vRepeat: nat
    var mode: Mode
    /** The two 32-entry palettes, three bytes (R, G, B) per entry. */
    const palette: array<bv8>
    var changeMode: nat
    var rewritePalette: nat
    var currentPalette: nat
    /** pixel_buffer and its position. */
    const run: PixelRun
    /** The transfers issued so far, oldest first. */
    var bus: seq<BusOp>

    ghost predicate Valid()
      reads this`displayWidth, this`displayHeight, this`frameWidth, this`frameHeight,
            this`hRepeat, this`vRepeat, this`currentPalette, run, run.buffer
    {
      palette.Length == NUM_PALETTES * PALETTE_SIZE * 3 &&
      displayWidth < 0x10000 && displayHeight < 0x10000 && frameWidth < 0x10000 && frameHeight < 0x10000 &&
      hRepeat < 256 && vRepeat < 256 && currentPalette < 256 &&
      run.Valid()
    }

    /** The colour entry `entry` of palette `paletteIdx` holds. */
    function PaletteColour(paletteIdx: nat, entry: nat): bv32
      reads palette
      requires palette.Length == NUM_PALETTES * PALETTE_SIZE * 3
      requires paletteIdx * PALETTE_SIZE + entry < NUM_PALETTES * PALETTE_SIZE
    {
      SlotColour(palette[..], paletteIdx * PALETTE_SIZE + entry)
    }

    twostate predicate SameGeometry()
      reads this
    {
      displayWidth == old(displayWidth) && displayHeight == old(displayHeight) &&
      frameWidth == old(frameWidth) && frameHeight == old(frameHeight) && bank == old(bank) &&
      hRepeat == old(hRepeat) && vRepeat == old(vRepeat) && currentPalette == old(currentPalette)
    }

    twostate predicate SameFlags()
      reads this
    {
      mode == old(mode) && changeMode == old(changeMode) && rewritePalette == old(rewritePalette)
    }

    /** A fresh driver: nothing sized yet, RGB555 mode, no pending run. */
    constructor ()
      ensures Valid()
      ensures displayWidth == 0 && displayHeight == 0 && frameWidth == 0 && frameHeight == 0
      ensures bank == 0 && hRepeat == 1 && vRepeat == 1 && mode == ModeRgb555
      ensures changeMode == 0 && rewritePalette == 0 && currentPalette == 0
      ensures run.locX == -1 && run.locY == -1 && bus == []
      ensures fresh(palette) && fresh(run) && fresh(run.buffer)
    {
      displayWidth, displayHeight, frameWidth, frameHeight := 0, 0, 0, 0;
      bank, hRepeat, vRepeat := 0, 1, 1;
      mode := ModeRgb555;
      palette := new bv8[NUM_PALETTES * PALETTE_SIZE * 3];
      changeMode, rewritePalette, currentPalette := 0, 0, 0;
      run := new PixelRun();
      bus := [];
    }

    // ----- header -----

    /** write_header_preamble: the seven preamble words at address 0. */
    method WriteHeaderPreamble()
      requires Valid()
      modifies this`bus
      ensures bus == old(bus) + [RamWrite(0, WordsLe(PreambleWords(displayWidth, displayHeight, hRepeat, vRepeat, bank)))]
    {
      var buf := PreambleWords(displayWidth, displayHeight, hRepeat, vRepeat, bank);
      bus := bus + [RamWrite(0, WordsLe(buf))];
    }

    /** set_scroll_idx_for_lines: the scanline words of lines [miny, maxy),
        32 lines per transfer; a negative index keeps each line's index and
        reads the words back first (their values passed in as previous). */
    method SetScrollIdxForLines(idx: int, miny: int, maxy: int, previous: seq<bv32>)
      requires Valid()
      requires idx < 0 ==> |previous| >= maxy - miny
      modifies this`bus
      ensures bus == old(bus) + ScrollIdxOps(mode, idx, hRepeat, frameWidth, miny, maxy, previous)
    {
      ghost var ops := ScrollIdxOps(mode, idx, hRepeat, frameWidth, miny, maxy, previous);
      ghost var n := NumLineChunks(miny, maxy);
      var addr := Wrap32(4 * (7 + miny));
      var i := miny;
      ghost var c: nat := 0;
      while i < maxy
        invariant i == miny + LINE_CHUNK * c && c <= n
        invariant c < n <==> i < maxy
        invariant c < n ==> addr == ChunkAddress(miny, c)
        invariant bus == old(bus) + ops[..OpsPerChunk(idx) * c]
        decreases maxy - i
      {
        var maxj := Min(LINE_CHUNK, maxy - i);
        if idx < 0 {
          bus := bus + [RamRead(addr, maxj)];
        }
        var buf := BuildChunk(mode, idx, hRepeat, frameWidth, miny, maxy, previous, c, i);
        bus := bus + [RamWrite(addr, WordsLe(buf))];
        ScrollOpsStep(mode, idx, hRepeat, frameWidth, miny, maxy, previous, c);
        Wrap32Add(4 * (7 + miny) + 4 * LINE_CHUNK * c, 4 * maxj);
        addr := Wrap32(addr + 4 * maxj);
        i := i + LINE_CHUNK;
        c := c + 1;
      }
      assert OpsPerChunk(idx) * c == |ops|;
    }

    /** write_sprite_table: one word per sprite slot, 32 per transfer. */
    method WriteSpriteTable()
      requires Valid()
      modifies this`bus
      ensures bus == old(bus) + SpriteTableOps(mode, displayHeight)
    {
      ghost var ops := SpriteTableOps(mode, displayHeight);
      var addr := SpriteTableAddress(displayHeight);
      var i := 0;
      while i < MAX_NUM_SPRITES
        invariant i % 32 == 0 && i <= MAX_NUM_SPRITES
        invariant addr == SpriteTableAddress(displayHeight) + 4 * i
        invariant bus == old(bus) + ops[..i / 32]
      {
        var buf := BuildSpriteTableChunk(mode, i);
        assert buf == SpriteTableChunk(mode, i / 32);
        assert ops[..i / 32 + 1] == ops[..i / 32] + [RamWrite(addr, WordsLe(buf))];
        bus := bus + [RamWrite(addr, WordsLe(buf))];
        addr := addr + 128;
        i := i + 32;
      }
    }

    /** write_header: preamble, scanline words with scroll index 0, sprite table. */
    method WriteHeader()
      requires Valid()
      modifies this`bus
      ensures bus == old(bus) + HeaderOps(mode, displayWidth, displayHeight, frameWidth, hRepeat, vRepeat, bank)
    {
      ghost var a := [RamWrite(0, WordsLe(PreambleWords(displayWidth, displayHeight, hRepeat, vRepeat, bank)))];
      ghost var b := ScrollIdxOps(mode, 0, hRepeat, frameWidth, 0, displayHeight, []);
      ghost var c := SpriteTableOps(mode, displayHeight);
      WriteHeaderPreamble();
      assert bus == old(bus) + a;
      SetScrollIdxForLines(0, 0, displayHeight, []);
      assert bus == old(bus) + a + b;
      WriteSpriteTable();
      assert bus == old(bus) + a + b + c;
      SeqAssoc3(old(bus), a, b, c);
    }

    // ----- sprites -----

    /** clear_sprite: hides a displayed sprite; numbers from 80 up are ignored. */
    method ClearSprite(spriteNum: int)
      requires Valid()
      modifies this`bus
      ensures spriteNum < MAX_DISPLAYED_SPRITES ==> bus == old(bus) + [I2cWrite(spriteNum, CLEAR_SPRITE_RECORD)]
      ensures spriteNum >= MAX_DISPLAYED_SPRITES ==> bus == old(bus)
    {
      if spriteNum < MAX_DISPLAYED_SPRITES {
        bus := bus + [I2cWrite(spriteNum, CLEAR_SPRITE_RECORD)];
      }
    }

    /** set_sprite: shows sprite data dataIdx as displayed sprite spriteNum;
        numbers from 80 up are ignored. */
    method SetSprite(spriteNum: int, dataIdx: nat, x: int, y: int, blend: SpriteBlendMode, vScale: int)
      requires Valid() && dataIdx < 0x10000
      modifies this`bus
      ensures spriteNum < MAX_DISPLAYED_SPRITES ==>
                bus == old(bus) + [I2cWrite(spriteNum, SpriteRecord(blend, vScale, dataIdx, x, y))]
      ensures spriteNum >= MAX_DISPLAYED_SPRITES ==> bus == old(bus)
    {
      if spriteNum < MAX_DISPLAYED_SPRITES {
        bus := bus + [I2cWrite(spriteNum, SpriteRecord(blend, vScale, dataIdx, x, y))];
      }
    }

    /** define_sprite (ARGB1555 pixels) into slot dataIdx. */
    method DefineSprite(dataIdx: nat, width: nat, height: nat, data: seq<bv16>) returns (rows: nat)
      requires Valid()
      requires dataIdx < 0x10000 && width < 256 && height <= MAX_SPRITE_ROWS && width * height <= |data|
      modifies this`bus
      ensures rows == TrimmedHeight(RowLengths(Argb1555(data), width, height), height)
      ensures bus == old(bus) + [RamWrite(SpriteSlotAddress(dataIdx), Uint16sLe(SpriteHeader(Argb1555(data), width, rows)))] +
                                RowWrites(Argb1555(data), width, dataIdx, rows, rows)
    {
      var ops;
      ops, rows := DefineSpriteInternal(dataIdx, width, height, Argb1555(data));
      DefineOpsShape(Argb1555(data), width, dataIdx, rows, ops);
      bus := bus + ops;
    }

    /** define_palette_sprite (one byte per pixel) into slot dataIdx. */
    method DefinePaletteSprite(dataIdx: nat, width: nat, height: nat, data: seq<bv8>) returns (rows: nat)
      requires Valid()
      requires dataIdx < 0x10000 && width < 256 && height <= MAX_SPRITE_ROWS && width * height <= |data|
      modifies this`bus
      ensures rows == TrimmedHeight(RowLengths(PaletteBytes(data), width, height), height)
      ensures bus == old(bus) + [RamWrite(SpriteSlotAddress(dataIdx), Uint16sLe(SpriteHeader(PaletteBytes(data), width, rows)))] +
                                RowWrites(PaletteBytes(data), width, dataIdx, rows, rows)
    {
      var ops;
      ops, rows := DefineSpriteInternal(dataIdx, width, height, PaletteBytes(data));
      DefineOpsShape(PaletteBytes(data), width, dataIdx, rows, ops);
      bus := bus + ops;
    }

    /** setup_scroll_group: the 13-byte configuration of scroll group idx;
        indexes outside 1..7 are ignored. */
    method SetupScrollGroup(px: int, py: int, idx: int, wrapFromX: int, wrapFromY: int, wrapToX: int, wrapToY: int)
      requires Valid()
      modifies this`bus
      ensures (idx < 1 || idx > 7) ==> bus == old(bus)
      ensures 1 <= idx <= 7 ==>
                bus == old(bus) + [ScrollGroup(mode, frameWidth, displayWidth, displayHeight, px, py, idx,
                                               wrapFromX, wrapFromY, wrapToX, wrapToY).value]
    {
      if idx < 1 || idx > 7 {
        return;
      }
      var op := ScrollGroup(mode, frameWidth, displayWidth, displayHeight, px, py, idx, wrapFromX, wrapFromY, wrapToX, wrapToY);
      bus := bus + [op.value];
    }

    // ----- mode and init -----

    /** set_mode: refuses RGB888 without pixel doubling; otherwise rewrites
        the scanline words and the sprite table for the new format, clears
        every displayed sprite and schedules the switch. */
    method SetMode(m: Mode)
      requires Valid()
      modifies this`mode, this`changeMode, this`rewritePalette, this`bus
      ensures m == ModeRgb888 && hRepeat == 1 ==> SameFlags() && bus == old(bus)
      ensures !(m == ModeRgb888 && hRepeat == 1) ==>
                mode == m && changeMode == 1 &&
                rewritePalette == (if m == ModePalette then 2 else old(rewritePalette)) &&
                bus == old(bus) + SetModeOps(m, hRepeat, frameWidth, displayHeight)
    {
      if m == ModeRgb888 && hRepeat == 1 {
        return;
      }
      mode := m;
      WriteModeTables();
      changeMode := 1;
      if mode == ModePalette {
        rewritePalette := 2;
      }
    }

    /** The writes of set_mode once the mode is stored: every scanline's
        words, the sprite table, then the 80 sprite clears. */
    method WriteModeTables()
      requires Valid()
      modifies this`bus
      ensures bus == old(bus) + SetModeOps(mode, hRepeat, frameWidth, displayHeight)
    {
      ghost var a := ScrollIdxOps(mode, 0, hRepeat, frameWidth, 0, displayHeight, []);
      ghost var b := SpriteTableOps(mode, displayHeight);
      SetScrollIdxForLines(0, 0, displayHeight, []);
      assert bus == old(bus) + a;
      WriteSpriteTable();
      assert bus == old(bus) + a + b;
      ClearDisplayedSprites();
      assert bus == old(bus) + a + b + ClearAllOps();
      SeqAssoc3(old(bus), a, b, ClearAllOps());
      assert SetModeOps(mode, hRepeat, frameWidth, displayHeight) == a + b + ClearAllOps();
    }

    /** The loop of set_mode that hides all 80 displayed sprites. */
    method ClearDisplayedSprites()
      requires Valid()
      modifies this`bus
      ensures bus == old(bus) + ClearAllOps()
    {
      var i := 0;
      while i < MAX_DISPLAYED_SPRITES
        invariant 0 <= i <= MAX_DISPLAYED_SPRITES
        invariant bus == old(bus) + ClearAllOps()[..i]
      {
        ClearSprite(i);
        assert ClearAllOps()[..i + 1] == ClearAllOps()[..i] + [I2cWrite(i, CLEAR_SPRITE_RECORD)];
        i := i + 1;
      }
    }

    /** init: picks the pixel doubling and the HDMI resolution for the
        display size, refusing RGB888 without horizontal doubling and sizes
        the resolution table lacks; on success writes a header into both
        PSRAM banks, starts the GPU and switches to the requested mode. */
    method Init(dw: nat, dh: nat, m: Mode, fw: nat, fh: nat, maxCompatibility: bool) returns (ok: bool)
      requires Valid()
      requires dw < 0x10000 && dh < 0x10000 && fw < 0x10000 && fh < 0x10000
      modifies this`displayWidth, this`displayHeight, this`frameWidth, this`frameHeight, this`bank,
               this`hRepeat, this`vRepeat, this`mode, this`changeMode, this`rewritePalette, this`bus
      ensures Valid()
      ensures displayWidth == dw && displayHeight == dh
      ensures frameWidth == FrameWidthFor(dw, fw) && frameHeight == FrameHeightFor(dh, fh)
      ensures bank == 0 && hRepeat == HRepeatFor(dw, dh)
      ensures vRepeat == (if RejectsRgb888(dw, dh, m) then 1 else VRepeatFor(dh))
      ensures ok <==> InitResolution(dw, dh, m).Some?
      ensures !ok ==> SameFlags() && bus == old(bus)
      ensures ok ==> mode == m && changeMode == 1 && rewritePalette == (if m == ModePalette then 2 else old(rewritePalette))
      ensures ok ==> bus == old(bus) + InitOps(old(mode), m, dw, dh, frameWidth, hRepeat, vRepeat,
                                               InitResolution(dw, dh, m).value, maxCompatibility)
    {
      var res := Configure(dw, dh, m, fw, fh);
      if res.None? {
        return false;
      }
      StartGpu(res.value, maxCompatibility, m);
      ok := true;
    }

    /** The part of init that changes no hardware: the sizes, the pixel
        doubling and the resolution to ask for. */
    method Configure(dw: nat, dh: nat, m: Mode, fw: nat, fh: nat) returns (res: Option<Resolution>)
      requires Valid()
      requires dw < 0x10000 && dh < 0x10000 && fw < 0x10000 && fh < 0x10000
      modifies this`displayWidth, this`displayHeight, this`frameWidth, this`frameHeight, this`bank,
               this`hRepeat, this`vRepeat
      ensures Valid()
      ensures displayWidth == dw && displayHeight == dh
      ensures frameWidth == FrameWidthFor(dw, fw) && frameHeight == FrameHeightFor(dh, fh)
      ensures bank == 0 && hRepeat == HRepeatFor(dw, dh)
      ensures vRepeat == (if RejectsRgb888(dw, dh, m) then 1 else VRepeatFor(dh))
      ensures res == InitResolution(dw, dh, m)
    {
      SetGeometry(dw, dh, fw, fh);
      var h, v;
      h, v, res := ChooseTiming(dw, dh, m);
      hRepeat, vRepeat := h, v;
    }

    /** The first lines of init: the display and frame sizes (a frame width
        rounded up to a multiple of 4 pixels, 0 meaning the display's) and
        bank 0. */
    method SetGeometry(dw: nat, dh: nat, fw: nat, fh: nat)
      requires dw < 0x10000 && dh < 0x10000 && fw < 0x10000 && fh < 0x10000
      modifies this`displayWidth, this`displayHeight, this`frameWidth, this`frameHeight, this`bank
      ensures displayWidth == dw && displayHeight == dh
      ensures frameWidth == FrameWidthFor(dw, fw) && frameHeight == FrameHeightFor(dh, fh)
      ensures bank == 0
    {
      displayWidth, displayHeight := dw, dh;
      var w := if fw == 0 then dw else fw;
      if w % 4 != 0 {
        w := (w + 4 - w % 4) % 0x10000;
      }
      frameWidth := w;
      frameHeight := if fh == 0 then dh else fh;
      bank := 0;
    }

    /** The second half of init, once the resolution is known: a header into
        each PSRAM bank, then the resolution (with bit 7 asking for maximum
        compatibility) and the start register, then set_mode. */
    method StartGpu(r: Resolution, maxCompatibility: bool, m: Mode)
      requires Valid() && !(m == ModeRgb888 && hRepeat == 1)
      modifies this`bank, this`mode, this`changeMode, this`rewritePalette, this`bus
      ensures bank == 0
      ensures mode == m && changeMode == 1 && rewritePalette == (if m == ModePalette then 2 else old(rewritePalette))
      ensures bus == old(bus) + InitOps(old(mode), m, displayWidth, displayHeight, frameWidth, hRepeat, vRepeat,
                                       r, maxCompatibility)
    {
      ghost var bus0 := bus;
      ghost var he := StartOps(mode, displayWidth, displayHeight, frameWidth, hRepeat, vRepeat, r, maxCompatibility);
      ghost var f := SetModeOps(m, hRepeat, frameWidth, displayHeight);
      WriteHeadersAndStart(r, maxCompatibility);
      SetMode(m);
      SeqAssoc2(bus0, he, f);
    }

    /** init up to the start register: both headers, then the resolution. */
    method WriteHeadersAndStart(r: Resolution, maxCompatibility: bool)
      requires Valid()
      modifies this`bank, this`bus
      ensures Valid() && bank == 0
      ensures bus == old(bus) + StartOps(mode, displayWidth, displayHeight, frameWidth, hRepeat, vRepeat, r, maxCompatibility)
    {
      WriteBothHeaders();
      WriteResolution(r, maxCompatibility);
    }

    /** The resolution register (bit 7 asking for maximum compatibility),
        then the start register. */
    method WriteResolution(r: Resolution, maxCompatibility: bool)
      requires Valid()
      modifies this`bus
      ensures Valid()
      ensures bus == old(bus) + [I2cWrite(I2C_REG_SET_RES, [ResModeByte(r, maxCompatibility)]), I2cWrite(I2C_REG_START, [1])]
    {
      var resByte := ResolutionCode(r) as bv8;
      if maxCompatibility {
        resByte := resByte | 0x80;
      }
      bus := bus + [I2cWrite(I2C_REG_SET_RES, [resByte]), I2cWrite(I2C_REG_START, [1])];
    }

    /** The header writes of init: bank 0 selected and its header written,
        then bank 1, then bank 0 selected again. */
    method WriteBothHeaders()
      requires Valid()
      modifies this`bank, this`bus
      ensures Valid() && bank == 0
      ensures bus == old(bus) + BothHeaderOps(mode, displayWidth, displayHeight, frameWidth, hRepeat, vRepeat)
    {
      ghost var bus0 := bus;
      ghost var h0 := HeaderOps(mode, displayWidth, displayHeight, frameWidth, hRepeat, vRepeat, 0);
      ghost var h1 := HeaderOps(mode, displayWidth, displayHeight, frameWidth, hRepeat, vRepeat, 1);
      SelectAndWriteHeader(0);
      assert bus == bus0 + [RamSelect(0)] + h0;
      SelectAndWriteHeader(1);
      assert bus == bus0 + [RamSelect(0)] + h0 + [RamSelect(1)] + h1;
      bank := 0;
      bus := bus + [RamSelect(0)];
      ConcatAssoc5(bus0, [RamSelect(0)], h0, [RamSelect(1)], h1, [RamSelect(0)]);
    }

    /** One bank's half of the header writes: select the bank, then write_header. */
    method SelectAndWriteHeader(b: nat)
      requires Valid()
      modifies this`bank, this`bus
      ensures bank == b
      ensures bus == old(bus) + [RamSelect(b)] + HeaderOps(mode, displayWidth, displayHeight, frameWidth, hRepeat, vRepeat, b)
    {
      bus := bus + [RamSelect(b)];
      bank := b;
      WriteHeader();
    }

    // ----- pixels -----

    /** write_pixel (16-bit): a pixel at the pending run's next column on
        its row is appended, and a run that reaches 64 pixels is written out
        (128 bytes) and closed. Any other pixel writes out the pending run,
        if there is one, and starts a new run of one pixel. */
    method WritePixel(px: int, py: int, colour: bv16)
      requires Valid() && (run.locY != -1 ==> run.is16)
      modifies this`bus, run, run.buffer
      ensures Valid() && (run.locY != -1 ==> run.is16)
      ensures Appends(old(run.locX), old(run.locY), old(run.x), px, py) ==>
                run.locX == old(run.locX) && run.x == old(run.x) + 1 &&
                run.Pending16() == old(run.Pending16()) + [colour] &&
                if run.x == 2 * PIXEL_BUFFER_LEN_IN_WORDS then
                  run.locY == -1 &&
                  bus == old(bus) + [RamWrite(PointToAddress16(frameWidth, run.locX, py), HalvesLe(run.Pending16()))]
                else
                  run.locY == py && bus == old(bus)
      ensures !Appends(old(run.locX), old(run.locY), old(run.x), px, py) ==>
                run.locX == px && run.locY == py && run.x == 1 && run.Pending16() == [colour] &&
                bus == old(bus) + (if old(run.locY) == -1 then [] else
                  [RamWrite(PointToAddress16(frameWidth, old(run.locX), old(run.locY)), HalvesLe(old(run.Pending16())))])
    {
      if Appends(run.locX, run.locY, run.x, px, py) {
        run.Push16(colour);
        if run.x == 2 * PIXEL_BUFFER_LEN_IN_WORDS {
          WordsLeAsHalves(run.buffer[..], run.x);
          assert WordsLe(run.buffer[..])[..2 * run.x] == WordsLe(run.buffer[..]);
          bus := bus + [RamWrite(PointToAddress16(frameWidth, run.locX, run.locY), WordsLe(run.buffer[..]))];
          run.locY := -1;
        }
        return;
      }
      if run.locY != -1 {
        WordsLeAsHalves(run.buffer[..], run.x);
        bus := bus + [RamWrite(PointToAddress16(frameWidth, run.locX, run.locY), WordsLe(run.buffer[..])[..2 * run.x])];
      }
      run.Start16(px, py, colour);
    }

    /** write_palette_pixel: the same coalescing for one-byte pixels, with
        runs of up to 128 bytes. */
    method WritePalettePixel(px: int, py: int, colour: bv8)
      requires Valid() && (run.locY != -1 ==> !run.is16)
      modifies this`bus, run, run.buffer
      ensures Valid() && (run.locY != -1 ==> !run.is16)
      ensures Appends(old(run.locX), old(run.locY), old(run.x), px, py) ==>
                run.locX == old(run.locX) && run.x == old(run.x) + 1 &&
                run.Pending8() == old(run.Pending8()) + [colour] &&
                if run.x == 4 * PIXEL_BUFFER_LEN_IN_WORDS then
                  run.locY == -1 &&
                  bus == old(bus) + [RamWrite(PointToAddressPalette(frameWidth, run.locX, py), run.Pending8())]
                else
                  run.locY == py && bus == old(bus)
      ensures !Appends(old(run.locX), old(run.locY), old(run.x), px, py) ==>
                run.locX == px && run.locY == py && run.x == 1 && run.Pending8() == [colour] &&
                bus == old(bus) + (if old(run.locY) == -1 then [] else
                  [RamWrite(PointToAddressPalette(frameWidth, old(run.locX), old(run.locY)), old(run.Pending8()))])
    {
      if Appends(run.locX, run.locY, run.x, px, py) {
        run.Push8(colour);
        if run.x == 4 * PIXEL_BUFFER_LEN_IN_WORDS {
          assert WordsLe(run.buffer[..])[..run.x] == WordsLe(run.buffer[..]);
          bus := bus + [RamWrite(PointToAddressPalette(frameWidth, run.locX, run.locY), WordsLe(run.buffer[..]))];
          run.locY := -1;
        }
        return;
      }
      if run.locY != -1 {
        bus := bus + [RamWrite(PointToAddressPalette(frameWidth, run.locX, run.locY), WordsLe(run.buffer[..])[..run.x])];
      }
      run.Start8(px, py, colour);
    }

    // ----- spans -----

    /** write_pixel_span (16-bit colour): one repeated-word transfer filling
        l pixels with the colour. */
    method WritePixelSpan16(px: int, py: int, l: nat, colour: bv16)
      modifies this`bus
      ensures bus == old(bus) + [RamWriteRepeat(PointToAddress16(frameWidth, px, py), Fill16Word(colour), Wrap32(2 * l))]
    {
      var val := (colour as bv32) | ((colour as bv32) << 16);
      bus := bus + [RamWriteRepeat(PointToAddress16(frameWidth, px, py), val, Wrap32(2 * l))];
    }

    /** write_palette_pixel_span (one colour): l bytes of the colour. */
    method WritePaletteSpan(px: int, py: int, l: nat, colour: bv8)
      requires l < U32
      modifies this`bus
      ensures bus == old(bus) + [RamWriteRepeat(PointToAddressPalette(frameWidth, px, py), Fill8Word(colour), l)]
    {
      var val := (colour as bv32) | ((colour as bv32) << 16);
      val := val | (val << 8);
      bus := bus + [RamWriteRepeat(PointToAddressPalette(frameWidth, px, py), val, l)];
    }

    /** write_pixel (RGB888): the colour's three low bytes at the pixel. */
    method WritePixel24(px: int, py: int, colour: bv32)
      modifies this`bus
      ensures bus == old(bus) + [RamWrite(PointToAddress24(frameWidth, px, py), WordLe(colour)[..3])]
    {
      bus := bus + [RamWrite(PointToAddress24(frameWidth, px, py), WordLe(colour)[..3])];
    }

    /** write(address, len, RGB888): up to 80 pixels of the colour packed
        into 60 words, written out 240 bytes at a time. */
    method WriteRgb888(address: nat, len: nat, c: bv32)
      requires address < U32 && 3 * len < 0x8000_0000
      modifies this`bus
      ensures bus == old(bus) + Rgb888SpanOps(address, len, c)
    {
      var vals := FillRgb888(len, c);
      WriteRgb888Chunks(address, len, c, vals);
    }

    /** The chunk loop of write(address, len, RGB888): each pass writes
        up to 240 bytes of the value buffer at the next address. */
    method WriteRgb888Chunks(address: nat, len: nat, c: bv32, vals: seq<bv32>)
      requires address < U32 && 3 * len < 0x8000_0000
      requires vals == Rgb888Fill(c, Rgb888Groups(len))
      modifies this`bus
      ensures bus == old(bus) + Rgb888SpanOps(address, len, c)
    {
      ghost var ops := Rgb888SpanOps(address, len, c);
      var lenBytes: int := 3 * len;
      var addr := address;
      ghost var k: nat := 0;
      while lenBytes > 0
        invariant k <= NumRgb888Chunks(len)
        invariant lenBytes == 3 * len - RGB888_CHUNK_BYTES * k
        invariant lenBytes > 0 <==> k < NumRgb888Chunks(len)
        invariant lenBytes > 0 ==> addr == Wrap32(address + RGB888_CHUNK_BYTES * k)
        invariant bus == old(bus) + ops[..k]
      {
        var n := Min(lenBytes, RGB888_CHUNK_BYTES);
        assert n == Rgb888ChunkBytes(len, k);
        assert ops[k] == RamWrite(addr, WordsLe(vals)[..n]);
        assert ops[..k + 1] == ops[..k] + [ops[k]];
        bus := bus + [RamWrite(addr, WordsLe(vals)[..n])];
        Wrap32Add(address + RGB888_CHUNK_BYTES * k, n);
        addr := Wrap32(addr + n);
        lenBytes := lenBytes - RGB888_CHUNK_BYTES;
        k := k + 1;
      }
      assert ops[..k] == ops;
    }

    /** write_pixel_span (RGB888 colour). */
    method WritePixelSpan24(px: int, py: int, l: nat, colour: bv32)
      requires 3 * l < 0x8000_0000
      modifies this`bus
      ensures bus == old(bus) + Rgb888SpanOps(PointToAddress24(frameWidth, px, py), l, colour)
    {
      WriteRgb888(PointToAddress24(frameWidth, px, py), l, colour);
    }

    /** write_pixel_span (16-bit data): when the buffer is off a word
        boundary the first pixel is written on its own; then the rest. */
    method WritePixelSpan16Data(px: int, py: int, l: nat, data: seq<bv16>, misaligned: bool)
      requires l <= |data| && 2 * l < U32
      modifies this`bus
      ensures bus == old(bus) + SplitWriteOps(PointToAddress16(frameWidth, px, py), HalvesLe(data[..l]), 2 * Span16Head(l, misaligned))
    {
      var address := PointToAddress16(frameWidth, px, py);
      ghost var bytes := HalvesLe(data[..l]);
      var offset := 0;
      var rest := l;
      var pos := 0;
      if misaligned && rest > 0 {
        HalvesLeFirst(data[..l]);
        assert data[..l][1..] == data[1..l];
        bus := bus + [RamWrite(address, HalfLe(data[0]))];
        pos := 1;
        rest := rest - 1;
        offset := 2;
      }
      if rest > 0 {
        assert data[..l][pos..] == data[pos..l];
        bus := bus + [RamWrite(Wrap32(address + offset), HalvesLe(data[pos..l]))];
      }
    }

    /** write_palette_pixel_span (byte data), with the head cut short by l
        as intended: the unaligned head on its own, then the rest. */
    method WritePaletteSpanData(px: int, py: int, l: nat, data: seq<bv8>, align: nat)
      requires l <= |data| && l < U32 && align < 4
      modifies this`bus
      ensures bus == old(bus) + SplitWriteOps(PointToAddressPalette(frameWidth, px, py), data[..l], PaletteSpanHead(l, align))
    {
      var address := PointToAddressPalette(frameWidth, px, py);
      var offset := 0;
      var rest := l;
      if align != 0 && rest > 0 {
        offset := Min(4 - align, rest);
        assert data[..l][..offset] == data[..offset];
        bus := bus + [RamWrite(address, data[..offset])];
        rest := rest - offset;
      }
      assert offset == PaletteSpanHead(l, align) && rest == l - offset;
      if rest > 0 {
        assert data[..l][offset..] == data[offset..l];
        bus := bus + [RamWrite(Wrap32(address + offset), data[offset..l])];
      }
    }

    /** write_24bpp_pixel_span: len pixels of three bytes each; the head
        brings an unaligned buffer to a word boundary, and is never longer
        than the span since a pixel is three bytes. */
    method WritePixelSpan24Data(px: int, py: int, len: nat, data: seq<bv8>, align: nat)
      requires 3 * len <= |data| && 3 * len < U32 && align < 4
      modifies this`bus
      ensures bus == old(bus) + SplitWriteOps(PointToAddress24(frameWidth, px, py), data[..3 * len],
                                              if align != 0 && len > 0 then 4 - align else 0)
    {
      var address := PointToAddress24(frameWidth, px, py);
      var offset := 0;
      var l := 3 * len;
      if align != 0 && l > 0 {
        offset := 4 - align;
        assert data[..3 * len][..offset] == data[..offset];
        bus := bus + [RamWrite(address, data[..offset])];
        l := l - offset;
        address := Wrap32(address + offset);
      }
      assert l == 3 * len - offset;
      if l > 0 {
        assert data[..3 * len][offset..] == data[offset..3 * len];
        bus := bus + [RamWrite(address, data[offset..3 * len])];
      }
    }

    // ----- GPIO -----

    /** set_gpio_29_dir: reads the mode register (its value is `current`),
        then writes 5 for an output, 0 for an input that was not one, and
        nothing when the pin already is an input. */
    method SetGpio29Dir(output: bool, current: bv8)
      modifies this`bus
      ensures bus == old(bus) + [I2cRead(I2C_REG_GPIO29_MODE)] +
                     WriteIfSome(I2C_REG_GPIO29_MODE, Gpio29DirMode(output, current))
    {
      bus := bus + [I2cRead(I2C_REG_GPIO29_MODE)];
      var pin29Mode := current;
      if output {
        pin29Mode := 5;
      } else if pin29Mode > 3 {
        pin29Mode := 0;
      } else {
        return;
      }
      bus := bus + [I2cWrite(I2C_REG_GPIO29_MODE, [pin29Mode])];
    }

    /** set_gpio_29_value: the PWM duty, 0-255. */
    method SetGpio29Value(pwm: bv8)
      modifies this`bus
      ensures bus == old(bus) + [I2cWrite(I2C_REG_GPIO29_OUT, [pwm])]
    {
      bus := bus + [I2cWrite(I2C_REG_GPIO29_OUT, [pwm])];
    }

    /** set_gpio_29: full on or off. */
    method SetGpio29(on: bool)
      modifies this`bus
      ensures bus == old(bus) + [I2cWrite(I2C_REG_GPIO29_OUT, [Gpio29Value(on)])]
    {
      if on {
        SetGpio29Value(255);
      } else {
        SetGpio29Value(0);
      }
    }

    /** set_gpio_29_pull_up (bit 0) and set_gpio_29_pull_down (bit 1): only
        an input pin is changed. */
    method SetGpio29Pull(bit: nat, on: bool, current: bv8)
      requires bit < 2
      modifies this`bus
      ensures bus == old(bus) + [I2cRead(I2C_REG_GPIO29_MODE)] +
                     WriteIfSome(I2C_REG_GPIO29_MODE, Gpio29PullMode(current, bit, on))
    {
      bus := bus + [I2cRead(I2C_REG_GPIO29_MODE)];
      var pin29Mode := current;
      if pin29Mode > 3 {
        return;
      }
      if on {
        pin29Mode := pin29Mode | ((1 as bv8) << bit);
      } else {
        pin29Mode := pin29Mode & !((1 as bv8) << bit);
      }
      bus := bus + [I2cWrite(I2C_REG_GPIO29_MODE, [pin29Mode])];
    }

    /** i2c_modify_bit: reads the register (its value is `current`) and
        writes it back with the one bit set or cleared. */
    method I2cModifyBit(reg: nat, bit: nat, enable: bool, current: bv8)
      requires bit < 32
      modifies this`bus
      ensures bus == old(bus) + [I2cRead(reg), I2cWrite(reg, [ModifyBit(current, bit, enable)])]
      ensures forall k :: 0 <= k < 8 && k != bit ==>
                (Bit(bus[|bus| - 1].data[0], k) <==> Bit(current, k))
      ensures bit < 8 ==> (Bit(bus[|bus| - 1].data[0], bit) <==> enable)
    {
      bus := bus + [I2cRead(reg)];
      var val := ModifyBit(current, bit, enable);
      bus := bus + [I2cWrite(reg, [val])];
      forall k | 0 <= k < 8
        ensures k != bit ==> (Bit(ModifyBit(current, bit, enable), k) <==> Bit(current, k))
        ensures k == bit ==> (Bit(ModifyBit(current, bit, enable), k) <==> enable)
      {
        ModifyBitExact(current, bit, enable, k);
      }
    }

    /** set_gpio_hi_dir, set_gpio_hi, set_gpio_hi_pull_up and
        set_gpio_hi_pull_down: one bit of the output-enable, output,
        pull-up or pull-down register of the "Hi" GPIOs. */
    method SetGpioHiBit(reg: nat, pin: nat, on: bool, current: bv8)
      requires reg in {I2C_REG_GPIO_HI_OE, I2C_REG_GPIO_HI_OUT, I2C_REG_GPIO_HI_PULL_UP, I2C_REG_GPIO_HI_PULL_DOWN}
      requires pin < 32
      modifies this`bus
      ensures bus == old(bus) + [I2cRead(reg), I2cWrite(reg, [ModifyBit(current, pin, on)])]
    {
      I2cModifyBit(reg, pin, on, current);
    }

    /** The set_gpio_hi_*_all setters: the whole register at once. */
    method SetGpioHiAll(reg: nat, val: bv8)
      requires reg in {I2C_REG_GPIO_HI_OE, I2C_REG_GPIO_HI_OUT, I2C_REG_GPIO_HI_PULL_UP, I2C_REG_GPIO_HI_PULL_DOWN}
      modifies this`bus
      ensures bus == old(bus) + [I2cWrite(reg, [val])]
    {
      bus := bus + [I2cWrite(reg, [val])];
    }

    // ----- palette -----

    /** set_palette_colour: stores entry `entry` of palette paletteIdx as
        (R, G, B) and schedules a palette rewrite. set_palette_colour does not
        check the index; the entry must lie inside the two palettes. */
    method SetPaletteColourIn(entry: nat, colour: bv32, paletteIdx: nat)
      requires Valid() && entry < 256
      requires paletteIdx * PALETTE_SIZE + entry < NUM_PALETTES * PALETTE_SIZE
      modifies this`rewritePalette, palette
      ensures rewritePalette == 2
      ensures var k := (paletteIdx * PALETTE_SIZE + entry) * 3;
              palette[k] == ((colour >> 16) & 0xFF) as bv8 &&
              palette[k + 1] == ((colour >> 8) & 0xFF) as bv8 &&
              palette[k + 2] == (colour & 0xFF) as bv8
      ensures var k := (paletteIdx * PALETTE_SIZE + entry) * 3;
              forall q :: 0 <= q < palette.Length && !(k <= q < k + 3) ==> palette[q] == old(palette[q])
      ensures forall t :: 0 <= t < NUM_PALETTES * PALETTE_SIZE && t != paletteIdx * PALETTE_SIZE + entry ==>
                SlotColour(palette[..], t) == SlotColour(old(palette[..]), t)
      ensures PaletteColour(paletteIdx, entry) == colour & 0xFF_FFFF
    {
      var k := (paletteIdx * PALETTE_SIZE + entry) * 3;
      palette[k] := ((colour >> 16) & 0xFF) as bv8;
      palette[k + 1] := ((colour >> 8) & 0xFF) as bv8;
      palette[k + 2] := (colour & 0xFF) as bv8;
      rewritePalette := 2;
      EntryRoundTrip(colour);
    }

    /** set_palette_colour on the current local palette. */
    method SetPaletteColour(entry: nat, colour: bv32)
      requires Valid() && entry < 256
      requires currentPalette * PALETTE_SIZE + entry < NUM_PALETTES * PALETTE_SIZE
      modifies this`rewritePalette, palette
      ensures rewritePalette == 2
      ensures var k := (currentPalette * PALETTE_SIZE + entry) * 3;
              forall q :: 0 <= q < palette.Length && !(k <= q < k + 3) ==> palette[q] == old(palette[q])
      ensures PaletteColour(currentPalette, entry) == colour & 0xFF_FFFF
    {
      SetPaletteColourIn(entry, colour, currentPalette);
    }

    /** set_palette: all 32 entries of palette paletteIdx. */
    method SetPaletteIn(colours: seq<bv32>, paletteIdx: nat)
      requires Valid() && |colours| >= PALETTE_SIZE && paletteIdx < NUM_PALETTES
      modifies this`rewritePalette, palette
      ensures rewritePalette == 2
      ensures forall e :: 0 <= e < PALETTE_SIZE ==> PaletteColour(paletteIdx, e) == colours[e] & 0xFF_FFFF
      ensures var base := paletteIdx * PALETTE_SIZE;
              forall t :: 0 <= t < NUM_PALETTES * PALETTE_SIZE && !(base <= t < base + PALETTE_SIZE) ==>
                SlotColour(palette[..], t) == SlotColour(old(palette[..]), t)
    {
      ghost var base := paletteIdx * PALETTE_SIZE;
      ghost var orig := palette[..];
      var i := 0;
      while i < PALETTE_SIZE
        invariant 0 <= i <= PALETTE_SIZE
        invariant i > 0 ==> rewritePalette == 2
        invariant |palette[..]| == |orig|
        invariant SlotsHold(palette[..], base, i, colours)
        invariant SlotsKept(palette[..], orig, base, i)
      {
        ghost var pre := palette[..];
        SetPaletteColourIn(i, colours[i], paletteIdx);
        SlotsStep(pre, palette[..], orig, base, i, colours);
        i := i + 1;
      }
      forall e | 0 <= e < PALETTE_SIZE
        ensures PaletteColour(paletteIdx, e) == colours[e] & 0xFF_FFFF
      {
        assert SlotColour(palette[..], base + e) == colours[base + e - base] & 0xFF_FFFF;
      }
    }

    /** set_palette on the current local palette. */
    method SetPalette(colours: seq<bv32>)
      requires Valid() && |colours| >= PALETTE_SIZE && currentPalette < NUM_PALETTES
      modifies this`rewritePalette, palette
      ensures rewritePalette == 2
      ensures forall e :: 0 <= e < PALETTE_SIZE ==> PaletteColour(currentPalette, e) == colours[e] & 0xFF_FFFF
      ensures var base := currentPalette * PALETTE_SIZE;
              forall t :: 0 <= t < NUM_PALETTES * PALETTE_SIZE && !(base <= t < base + PALETTE_SIZE) ==>
                SlotColour(palette[..], t) == SlotColour(old(palette[..]), t)
    {
      SetPaletteIn(colours, currentPalette);
    }

    /** set_local_palette_index: the palette later palette calls edit. */
    method SetLocalPaletteIndex(idx: nat)
      requires Valid() && idx < 256
      modifies this`currentPalette
      ensures Valid() && currentPalette == idx
    {
      currentPalette := idx;
    }
}
}
