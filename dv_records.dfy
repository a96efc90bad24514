/** The records the display driver packs for the GPU: the sprite placement
    record, the scroll-group configuration, the per-scanline words of the
    frame header, the sprite table words, the header preamble and the
    repeating byte patterns of the span fills. */
module DvRecords {
  import opened Wrappers
  import opened Bytes
  import opened DvDisplayHeader
  import opened DvBus

  /** The seven bytes set_sprite sends to the register of a displayed
      sprite: the blend mode with the vertical scale minus one in bits 3-7,
      then the data index, x and y, each low byte first. The blend code is
      below 8 and the shifted scale has its low three bits clear, so the OR
      of set_sprite is written here as the sum. */
  function SpriteRecord(blend: SpriteBlendMode, vScale: int, dataIdx: nat, x: int, y: int): (r: seq<bv8>)
    ensures |r| == 7
  {
    [ModeByte(blend, vScale),
     LowByte(dataIdx), LowByte(dataIdx / 256),
     LowByte(x), LowByte(x / 256),
     LowByte(y), LowByte(y / 256)]
  }

  /** The GPU reads the blend mode, the scale, the sprite data index and the
      position (as 16-bit two's complement) back out of the record. */
  lemma SpriteRecordDecodes(blend: SpriteBlendMode, vScale: int, dataIdx: nat, x: int, y: int)
    requires dataIdx < 0x10000
    ensures (SpriteRecord(blend, vScale, dataIdx, x, y)[0] as nat) % 8 == BlendCode(blend)
    ensures 1 <= vScale <= 32 ==> (SpriteRecord(blend, vScale, dataIdx, x, y)[0] as nat) / 8 == vScale - 1
    ensures LeValue(SpriteRecord(blend, vScale, dataIdx, x, y)[1..3]) == dataIdx
    ensures LeValue(SpriteRecord(blend, vScale, dataIdx, x, y)[3..5]) == x % 0x10000
    ensures LeValue(SpriteRecord(blend, vScale, dataIdx, x, y)[5..7]) == y % 0x10000
  {
    assert SpriteRecord(blend, vScale, dataIdx, x, y)[0] == ModeByte(blend, vScale);
    SpriteRecordPlace(blend, vScale, dataIdx, x, y);
  }

  /** The first record byte: the blend code in its low three bits and,
      for a scale of 1 to 32, the scale minus one above them. */
  function ModeByte(blend: SpriteBlendMode, vScale: int): (b: bv8)
    ensures (b as nat) % 8 == BlendCode(blend)
    ensures 1 <= vScale <= 32 ==> (b as nat) / 8 == vScale - 1
  {
    var b := LowByte(BlendCode(blend) + 8 * (vScale - 1));
    SpriteRecordByte0(BlendCode(blend), vScale - 1, b as nat);
    b
  }

  lemma SpriteRecordPlace(blend: SpriteBlendMode, vScale: int, dataIdx: nat, x: int, y: int)
    requires dataIdx < 0x10000
    ensures LeValue(SpriteRecord(blend, vScale, dataIdx, x, y)[1..3]) == dataIdx
    ensures LeValue(SpriteRecord(blend, vScale, dataIdx, x, y)[3..5]) == x % 0x10000
    ensures LeValue(SpriteRecord(blend, vScale, dataIdx, x, y)[5..7]) == y % 0x10000
  {
    var r := SpriteRecord(blend, vScale, dataIdx, x, y);
    Field16(r[1..3], dataIdx);
    Field16(r[3..5], x);
    Field16(r[5..7], y);
    ModSmall(dataIdx, 0x10000);
  }

  /** Two bytes holding v low byte first read back as v modulo 2^16. */
  lemma Field16(s: seq<bv8>, v: int)
    requires |s| == 2 && s[0] == LowByte(v) && s[1] == LowByte(v / 256)
    ensures LeValue(s) == v % 0x10000
  {
    assert LeBytes(v, 2) == [LowByte(v)] + LeBytes(v / 256, 1);
    assert s == LeBytes(v, 2);
    Le16Value(v, s);
  }

  /** A two-byte field reads back as its value modulo 2^16. */
  lemma Le16Value(v: int, s: seq<bv8>)
    requires s == LeBytes(v, 2)
    ensures LeValue(s) == v % 0x10000
    ensures 0 <= v < 0x10000 ==> LeValue(s) == v
  {
    LeBytesRoundTrip(v, 2);
    assert Pow256(2) == 0x10000;
    if 0 <= v < 0x10000 {
      ModSmall(v, 0x10000);
    }
  }

  lemma ModSmall(v: int, m: int)
    requires 0 <= v < m
    ensures v % m == v
  {
  }

  /** The first record byte keeps the blend code in its low three bits and,
      for a scale of 1 to 32, the scale minus one above them. */
  lemma SpriteRecordByte0(blend: nat, s: int, r: nat)
    requires blend < 8 && r == (blend + 8 * s) % 256
    ensures r % 8 == blend
    ensures 0 <= s < 32 ==> r / 8 == s
  {
    var b := blend + 8 * s;
    var q := b / 256;
    assert b == 256 * q + r;
    ModUnique(b, 8, s, blend);
    ModUnique(b, 8, 32 * q + r / 8, r % 8);
    if 0 <= s < 32 {
      ModUnique(b, 256, 0, b);
    }
  }


  /** The three bytes clear_sprite sends: blend mode 1 and the data index
      0xFFFF, which names no sprite slot. */
  const CLEAR_SPRITE_RECORD: seq<bv8> := [1, 0xFF, 0xFF]

  lemma ClearRecordNamesNoSlot()
    ensures LeValue(CLEAR_SPRITE_RECORD[1..3]) == 0xFFFF >= MAX_NUM_SPRITES
  {
    assert CLEAR_SPRITE_RECORD[1..3] == [0xFF, 0xFF];
    assert LeValue([0xFF as bv8]) == 0xFF by {
      assert ([0xFF as bv8])[1..] == [];
    }
    LeValueCons(0xFF, [0xFF]);
  }

  /** Only the low 8n bits of a value reach its n bytes, so the int16 and
      int32 truncations of the scroll fields do not change what is sent. */
  lemma {:induction false} LeBytesLowBits(v: int, n: nat)
    ensures LeBytes(v % Pow256(n), n) == LeBytes(v, n)
    decreases n
  {
    if n > 0 {
      var p := Pow256(n - 1);
      assert Pow256(n) == 256 * p;
      DivModStep(v, p);
      var w := v % (256 * p);
      assert w == v % 256 + 256 * ((v / 256) % p);
      ModUnique(w, 256, (v / 256) % p, v % 256);
      assert w / 256 == (v / 256) % p;
      LeBytesLowBits(v / 256, n - 1);
    }
  }

  /** The thirteen-byte scroll-group record: the scroll offset, the wrap
      address and the wrapped offset in three bytes each, then the wrap
      position and wrap offset in two bytes each. */
  function ScrollConfig(addrOffset: int, maxAddr: int, addrOffset2: int, wrapPosition: int, wrapOffset: int): (r: seq<bv8>)
    ensures |r| == 13
  {
    LeBytes(addrOffset, 3) + LeBytes(maxAddr, 3) + LeBytes(addrOffset2, 3)
      + LeBytes(wrapPosition, 2) + LeBytes(wrapOffset, 2)
  }

  lemma ScrollConfigDecodes(addrOffset: int, maxAddr: int, addrOffset2: int, wrapPosition: int, wrapOffset: int)
    ensures LeValue(ScrollConfig(addrOffset, maxAddr, addrOffset2, wrapPosition, wrapOffset)[0..3]) == addrOffset % 0x100_0000
    ensures LeValue(ScrollConfig(addrOffset, maxAddr, addrOffset2, wrapPosition, wrapOffset)[3..6]) == maxAddr % 0x100_0000
    ensures LeValue(ScrollConfig(addrOffset, maxAddr, addrOffset2, wrapPosition, wrapOffset)[6..9]) == addrOffset2 % 0x100_0000
    ensures LeValue(ScrollConfig(addrOffset, maxAddr, addrOffset2, wrapPosition, wrapOffset)[9..11]) == wrapPosition % 0x10000
    ensures LeValue(ScrollConfig(addrOffset, maxAddr, addrOffset2, wrapPosition, wrapOffset)[11..13]) == wrapOffset % 0x10000
  {
    var r := ScrollConfig(addrOffset, maxAddr, addrOffset2, wrapPosition, wrapOffset);
    var a, b, c, d, e := LeBytes(addrOffset, 3), LeBytes(maxAddr, 3), LeBytes(addrOffset2, 3),
                         LeBytes(wrapPosition, 2), LeBytes(wrapOffset, 2);
    var ab := a + b;
    var abc := ab + c;
    var abcd := abc + d;
    assert r == abcd + e;
    assert |ab| == 6 && |abc| == 9 && |abcd| == 11;
    assert r[11..13] == e;
    assert r[..11] == abcd;
    assert r[9..11] == abcd[9..11] == d;
    assert r[..9] == abc;
    assert r[6..9] == abc[6..9] == c;
    assert r[..6] == ab;
    assert r[3..6] == ab[3..6] == b;
    assert r[0..3] == ab[0..3] == a;
    LeBytesRoundTrip(addrOffset, 3);
    LeBytesRoundTrip(maxAddr, 3);
    LeBytesRoundTrip(addrOffset2, 3);
    LeBytesRoundTrip(wrapPosition, 2);
    LeBytesRoundTrip(wrapOffset, 2);
    assert Pow256(2) == 0x10000 && Pow256(3) == 0x100_0000;
  }

  /** The horizontal wrap applies only when wrap_from_x lies strictly inside
      the displayed span [px, px + displayWidth). */
  predicate WrapsHorizontally(px: int, displayWidth: nat, wrapFromX: int)
  {
    wrapFromX > px && wrapFromX < px + displayWidth
  }

  predicate WrapsVertically(py: int, displayHeight: nat, wrapFromY: int)
  {
    wrapFromY > py && wrapFromY < py + displayHeight
  }

  /** The scroll offset: the signed distance, in bytes, from the frame's
      first pixel to the pixel at the group's top left corner. */
  function ScrollOffset(m: Mode, frameWidth: nat, px: int, py: int): int
  {
    Int32(PointToAddress(m, frameWidth, px, py)) - Int32(PointToAddress(m, frameWidth, 0, 0))
  }

  /** The offset applied below the vertical wrap line. */
  function WrappedOffset(m: Mode, frameWidth: nat, px: int, py: int, wrapFromY: int, wrapToY: int): int
  {
    Int32(PointToAddress(m, frameWidth, px, py + wrapToY)) - Int32(PointToAddress(m, frameWidth, 0, wrapFromY))
  }

  /** The address at which the vertical wrap happens, or 0 for none. */
  function WrapAddress(m: Mode, frameWidth: nat, displayHeight: nat, py: int, wrapFromY: int): int
  {
    if WrapsVertically(py, displayHeight, wrapFromY) then PointToAddress(m, frameWidth, 0, wrapFromY) else 0
  }

  /** Where along the line the horizontal wrap happens, in bytes, or 0. */
  function WrapPosition(m: Mode, displayWidth: nat, px: int, wrapFromX: int): int
  {
    if WrapsHorizontally(px, displayWidth, wrapFromX) then (wrapFromX - px) * PixelSize(m) else 0
  }

  /** How far the horizontal wrap jumps, in bytes, or 0. */
  function WrapOffset(m: Mode, displayWidth: nat, px: int, wrapFromX: int, wrapToX: int): int
  {
    if WrapsHorizontally(px, displayWidth, wrapFromX) then (wrapToX - wrapFromX) * PixelSize(m) else 0
  }

  /** The I2C write setup_scroll_group issues for scroll group idx, or None
      when idx is outside 1..7. */
  function ScrollGroup(m: Mode, frameWidth: nat, displayWidth: nat, displayHeight: nat,
                       px: int, py: int, idx: int,
                       wrapFromX: int, wrapFromY: int, wrapToX: int, wrapToY: int): (r: Option<BusOp>)
    ensures r.None? <==> idx < 1 || idx > 7
    ensures r.Some? ==> r.value.I2cWrite? && r.value.reg == I2C_REG_SCROLL_BASE + idx && |r.value.data| == 13
  {
    if idx < 1 || idx > 7 then None
    else
      Some(I2cWrite(I2C_REG_SCROLL_BASE + idx,
                    ScrollConfig(ScrollOffset(m, frameWidth, px, py),
                                 WrapAddress(m, frameWidth, displayHeight, py, wrapFromY),
                                 WrappedOffset(m, frameWidth, px, py, wrapFromY, wrapToY),
                                 WrapPosition(m, displayWidth, px, wrapFromX),
                                 WrapOffset(m, displayWidth, px, wrapFromX, wrapToX))))
  }

  /** For a scroll position inside the frame (below 2 GB) the scroll offset
      is the byte offset of that pixel from the frame's start; without a
      wrap the wrap fields are zero. */
  lemma ScrollFieldsMeaning(m: Mode, frameWidth: nat, displayWidth: nat, displayHeight: nat,
                            px: nat, py: nat, wrapFromX: int, wrapFromY: int, wrapToX: int)
    requires BASE_ADDRESS + py * FrameRowStride(frameWidth) + PixelSize(m) * px < 0x8000_0000
    ensures ScrollOffset(m, frameWidth, px, py) == py * FrameRowStride(frameWidth) + PixelSize(m) * px
    ensures !WrapsHorizontally(px, displayWidth, wrapFromX) ==>
              WrapPosition(m, displayWidth, px, wrapFromX) == 0 && WrapOffset(m, displayWidth, px, wrapFromX, wrapToX) == 0
    ensures !WrapsVertically(py, displayHeight, wrapFromY) ==> WrapAddress(m, frameWidth, displayHeight, py, wrapFromY) == 0
    ensures WrapsHorizontally(px, displayWidth, wrapFromX) ==>
              0 < WrapPosition(m, displayWidth, px, wrapFromX) < displayWidth * PixelSize(m)
  {
    var a := PointToAddress(m, frameWidth, px, py);
    var a0 := PointToAddress(m, frameWidth, 0, 0);
    assert a0 == BASE_ADDRESS;
    assert 0 <= py * FrameRowStride(frameWidth) + PixelSize(m) * px;
    assert a == BASE_ADDRESS + py * FrameRowStride(frameWidth) + PixelSize(m) * px;
    if WrapsHorizontally(px, displayWidth, wrapFromX) {
      var d := wrapFromX - px;
      assert 0 < d < displayWidth;
      MulStrict(d, displayWidth, PixelSize(m));
    }
  }

  lemma MulStrict(d: nat, w: nat, k: nat)
    requires 0 < d < w && k >= 1
    ensures 0 < d * k < w * k
  {
  }

  /** The record sent for scroll group idx carries those fields; a group
      without wraps sends zeros in the wrap fields. */
  lemma ScrollGroupRecord(m: Mode, frameWidth: nat, displayWidth: nat, displayHeight: nat,
                          px: int, py: int, idx: int,
                          wrapFromX: int, wrapFromY: int, wrapToX: int, wrapToY: int)
    requires 1 <= idx <= 7
    requires !WrapsHorizontally(px, displayWidth, wrapFromX) && !WrapsVertically(py, displayHeight, wrapFromY)
    ensures ScrollGroup(m, frameWidth, displayWidth, displayHeight, px, py, idx, wrapFromX, wrapFromY, wrapToX, wrapToY).value.data
              == LeBytes(ScrollOffset(m, frameWidth, px, py), 3) + [0, 0, 0]
                 + LeBytes(WrappedOffset(m, frameWidth, px, py, wrapFromY, wrapToY), 3) + [0, 0, 0, 0]
  {
    assert LeBytes(0, 3) == [0, 0, 0];
    assert LeBytes(0, 2) == [0, 0];
  }

  /** The type field of a scanline word: the pixel format in bits 27-28 and,
      for a non-negative scroll index, the index in bits 29-31. */
  function LineType(m: Mode, idx: int): bv32
  {
    var t := (ModeCode(m) as bv32) << 27;
    if idx >= 0 then t | ((Wrap32(idx) as bv32) << 29) else t
  }

  /** The frame-buffer address of a line, in uint32 arithmetic. */
  function LineAddress(line: int, frameWidth: nat): (a: nat)
    ensures a < U32
  {
    Wrap32(line * frameWidth * 3 + BASE_ADDRESS)
  }

  /** The scanline word of a line: type, pixel doubling in bits 24-26 and the
      line's frame address. A negative scroll index keeps the index bits of
      the word already in RAM, passed in as previous. */
  function ScanlineWord(m: Mode, idx: int, hRepeat: nat, line: int, frameWidth: nat, previous: bv32): bv32
    requires hRepeat < 256
  {
    var w := LineType(m, idx) + ((hRepeat as bv32) << 24) + (LineAddress(line, frameWidth) as bv32);
    if idx >= 0 then w else (previous & 0xE000_0000) | w
  }

  /** Packing the four fields of a scanline word: they occupy disjoint bits. */
  lemma PackScanline(i: bv32, m: bv32, h: bv32, a: bv32)
    requires i < 8 && m < 4 && h < 8 && a < 0x100_0000
    ensures ((((m << 27) | (i << 29)) + (h << 24) + a) >> 29) == i
    ensures ((((m << 27) | (i << 29)) + (h << 24) + a) >> 27) & 3 == m
    ensures ((((m << 27) | (i << 29)) + (h << 24) + a) >> 24) & 7 == h
    ensures (((m << 27) | (i << 29)) + (h << 24) + a) & 0xFF_FFFF == a
  {
  }

  lemma PackScanlineKeep(p: bv32, m: bv32, h: bv32, a: bv32)
    requires m < 4 && h < 8 && a < 0x100_0000
    ensures (((p & 0xE000_0000) | ((m << 27) + (h << 24) + a)) >> 29) == p >> 29
    ensures (((p & 0xE000_0000) | ((m << 27) + (h << 24) + a)) >> 27) & 3 == m
    ensures (((p & 0xE000_0000) | ((m << 27) + (h << 24) + a)) >> 24) & 7 == h
    ensures ((p & 0xE000_0000) | ((m << 27) + (h << 24) + a)) & 0xFF_FFFF == a
  {
  }

  /** For a line whose frame address lies in the low 16 MB the GPU reads the
      scroll index, the format, the pixel doubling and the address back out
      of the scanline word; a negative index keeps the previous index. */
  lemma ScanlineWordDecodes(m: Mode, idx: int, hRepeat: nat, line: int, frameWidth: nat, previous: bv32)
    requires hRepeat < 8 && idx < 8
    requires LineAddress(line, frameWidth) < 0x100_0000
    ensures idx >= 0 ==> ScanlineWord(m, idx, hRepeat, line, frameWidth, previous) >> 29 == Wrap32(idx) as bv32
    ensures idx < 0 ==> ScanlineWord(m, idx, hRepeat, line, frameWidth, previous) >> 29 == previous >> 29
    ensures (ScanlineWord(m, idx, hRepeat, line, frameWidth, previous) >> 27) & 3 == ModeCode(m) as bv32
    ensures (ScanlineWord(m, idx, hRepeat, line, frameWidth, previous) >> 24) & 7 == hRepeat as bv32
    ensures ScanlineWord(m, idx, hRepeat, line, frameWidth, previous) & 0xFF_FFFF == LineAddress(line, frameWidth) as bv32
  {
    if idx >= 0 {
      ScanlineWordIndexed(m, idx, hRepeat, line, frameWidth, previous);
    } else {
      ScanlineWordKeeps(m, idx, hRepeat, line, frameWidth, previous);
    }
  }

  lemma ScanlineWordIndexed(m: Mode, idx: int, hRepeat: nat, line: int, frameWidth: nat, previous: bv32)
    requires hRepeat < 8 && 0 <= idx < 8
    requires LineAddress(line, frameWidth) < 0x100_0000
    ensures ScanlineWord(m, idx, hRepeat, line, frameWidth, previous) >> 29 == Wrap32(idx) as bv32
    ensures (ScanlineWord(m, idx, hRepeat, line, frameWidth, previous) >> 27) & 3 == ModeCode(m) as bv32
    ensures (ScanlineWord(m, idx, hRepeat, line, frameWidth, previous) >> 24) & 7 == hRepeat as bv32
    ensures ScanlineWord(m, idx, hRepeat, line, frameWidth, previous) & 0xFF_FFFF == LineAddress(line, frameWidth) as bv32
  {
    ModeBits(m);
    Below8(hRepeat);
    Below24(LineAddress(line, frameWidth));
    IndexBits(idx);
    PackScanline(Wrap32(idx) as bv32, ModeCode(m) as bv32, hRepeat as bv32, LineAddress(line, frameWidth) as bv32);
  }

  lemma ScanlineWordKeeps(m: Mode, idx: int, hRepeat: nat, line: int, frameWidth: nat, previous: bv32)
    requires hRepeat < 8 && idx < 0
    requires LineAddress(line, frameWidth) < 0x100_0000
    ensures ScanlineWord(m, idx, hRepeat, line, frameWidth, previous) >> 29 == previous >> 29
    ensures (ScanlineWord(m, idx, hRepeat, line, frameWidth, previous) >> 27) & 3 == ModeCode(m) as bv32
    ensures (ScanlineWord(m, idx, hRepeat, line, frameWidth, previous) >> 24) & 7 == hRepeat as bv32
    ensures ScanlineWord(m, idx, hRepeat, line, frameWidth, previous) & 0xFF_FFFF == LineAddress(line, frameWidth) as bv32
  {
    var mb := ModeCode(m) as bv32;
    var hb := hRepeat as bv32;
    var ab := LineAddress(line, frameWidth) as bv32;
    ModeBits(m);
    Below8(hRepeat);
    Below24(LineAddress(line, frameWidth));
    assert (mb << 27) + (hb << 24) + ab == LineType(m, idx) + (hb << 24) + ab;
    PackScanlineKeep(previous, mb, hb, ab);
  }

  /** The fields of a scanline word fit their bit ranges. */
  lemma ModeBits(m: Mode)
    ensures (ModeCode(m) as bv32) < 4
  {
    match m
    case ModePalette =>
    case ModeRgb555 =>
    case ModeRgb888 =>
  }

  lemma IndexBits(idx: int)
    requires 0 <= idx < 8
    ensures (Wrap32(idx) as bv32) < 8
  {
    Wrap32Small(idx);
    Below8(idx);
  }

  lemma Below8(x: nat)
    requires x < 8
    ensures (x as bv32) < 8
  {
  }

  lemma Below24(x: nat)
    requires x < 0x100_0000
    ensures (x as bv32) < 0x100_0000
  {
  }

  /** Entry i of the sprite table: the pixel format in bits 28-29 above the
      address of sprite slot i. */
  function SpriteTableWord(m: Mode, i: nat): (w: nat)
    requires i < MAX_NUM_SPRITES
    ensures w < U32
  {
    ModeCode(m) * 0x1000_0000 + i * SPRITE_SIZE + SPRITE_BASE_ADDRESS
  }

  lemma SpriteTableWordDecodes(m: Mode, i: nat)
    requires i < MAX_NUM_SPRITES
    ensures SpriteTableWord(m, i) / 0x1000_0000 == ModeCode(m)
    ensures SpriteTableWord(m, i) % 0x1000_0000 == SpriteSlotAddress(i)
  {
    SpriteSlotsFitInRam(i);
    ModUnique(SpriteTableWord(m, i), 0x1000_0000, ModeCode(m), SpriteSlotAddress(i));
  }

  /** The first of the sprite table words, after the scanline words and the
      two palettes. */
  function SpriteTableAddress(displayHeight: nat): nat
  {
    (displayHeight + 7) * 4 + NUM_PALETTES * PALETTE_SIZE * 3
  }

  /** write_sprite_table: 32 writes of 32 words, one word per sprite slot. */
  function SpriteTableOps(m: Mode, displayHeight: nat): (ops: seq<BusOp>)
    ensures |ops| == 32
  {
    seq(32, c requires 0 <= c < 32 => RamWrite(SpriteTableAddress(displayHeight) + 128 * c, WordsLe(SpriteTableChunk(m, c))))
  }

  /** The 32 sprite table words of the c-th write. */
  function SpriteTableChunk(m: Mode, c: nat): (ws: seq<bv32>)
    requires c < 32
    ensures |ws| == 32
  {
    seq(32, j requires 0 <= j < 32 => Word(SpriteTableWord(m, 32 * c + j)))
  }

  /** The seven words of the header preamble: the "PICO" magic, the version
      fields with the vertical repeat, the full width and the height in the
      upper halves, the bank in the top byte of word 5 and the palette count. */
  function PreambleWords(displayWidth: nat, displayHeight: nat, hRepeat: nat, vRepeat: nat, bank: nat): (ws: seq<bv32>)
    ensures |ws| == 7
  {
    [0x4F43_4950,
     Wrap32(0x0100_0101 + vRepeat * 0x10000) as bv32,
     Wrap32(displayWidth * hRepeat * 0x10000) as bv32,
     Wrap32(displayHeight * 0x10000) as bv32,
     1,
     Wrap32(displayHeight + bank * 0x100_0000) as bv32,
     Wrap32(0x0400_0000 + NUM_PALETTES) as bv32]
  }

  lemma PreambleMagic(displayWidth: nat, displayHeight: nat, hRepeat: nat, vRepeat: nat, bank: nat)
    ensures WordsLe(PreambleWords(displayWidth, displayHeight, hRepeat, vRepeat, bank))[0..4] == [0x50, 0x49, 0x43, 0x4F]
  {
    var ws := PreambleWords(displayWidth, displayHeight, hRepeat, vRepeat, bank);
    assert WordsLe(ws)[0] == ByteOf(ws[0], 0);
    assert WordsLe(ws)[1] == ByteOf(ws[0], 1);
    assert WordsLe(ws)[2] == ByteOf(ws[0], 2);
    assert WordsLe(ws)[3] == ByteOf(ws[0], 3);
  }

  /** The repeated word of a 16-bit span fill: the colour in both halves. */
  function Fill16Word(colour: bv16): bv32
  {
    (colour as bv32) | ((colour as bv32) << 16)
  }

  lemma Fill16Bytes(colour: bv16)
    ensures ByteOf(Fill16Word(colour), 0) == (colour & 0xFF) as bv8
    ensures ByteOf(Fill16Word(colour), 1) == (colour >> 8) as bv8
    ensures ByteOf(Fill16Word(colour), 2) == (colour & 0xFF) as bv8
    ensures ByteOf(Fill16Word(colour), 3) == (colour >> 8) as bv8
  {
  }

  /** A 16-bit fill writes the colour's two bytes, low byte first, twice per word. */
  lemma Fill16Pattern(colour: bv16)
    ensures WordLe(Fill16Word(colour)) == HalfLe(colour) + HalfLe(colour)
  {
    Fill16Bytes(colour);
  }

  /** The repeated word of a palette span fill: the colour in every byte. */
  function Fill8Word(colour: bv8): bv32
  {
    var v := (colour as bv32) | ((colour as bv32) << 16);
    v | (v << 8)
  }

  lemma Fill8Bytes(colour: bv8)
    ensures ByteOf(Fill8Word(colour), 0) == colour
    ensures ByteOf(Fill8Word(colour), 1) == colour
    ensures ByteOf(Fill8Word(colour), 2) == colour
    ensures ByteOf(Fill8Word(colour), 3) == colour
  {
  }

  /** A palette fill writes the colour into every byte. */
  lemma Fill8Pattern(colour: bv8)
    ensures WordLe(Fill8Word(colour)) == [colour, colour, colour, colour]
  {
    Fill8Bytes(colour);
  }

  /** Three words holding four RGB888 pixels, as write(RGB888) builds them. */
  function Rgb888Words(c: bv32): (ws: seq<bv32>)
    ensures |ws| == 3
  {
    [c | (c << 24), (c >> 8) | (c << 16), (c >> 16) | (c << 8)]
  }

  /** Byte k of the three words is byte k mod 3 of the colour. */
  lemma Rgb888WordBytes(c: bv32)
    requires c >> 24 == 0
    ensures ByteOf(c | (c << 24), 0) == ByteOf(c, 0)
    ensures ByteOf(c | (c << 24), 1) == ByteOf(c, 1)
    ensures ByteOf(c | (c << 24), 2) == ByteOf(c, 2)
    ensures ByteOf(c | (c << 24), 3) == ByteOf(c, 0)
    ensures ByteOf((c >> 8) | (c << 16), 0) == ByteOf(c, 1)
    ensures ByteOf((c >> 8) | (c << 16), 1) == ByteOf(c, 2)
    ensures ByteOf((c >> 8) | (c << 16), 2) == ByteOf(c, 0)
    ensures ByteOf((c >> 8) | (c << 16), 3) == ByteOf(c, 1)
    ensures ByteOf((c >> 16) | (c << 8), 0) == ByteOf(c, 2)
    ensures ByteOf((c >> 16) | (c << 8), 1) == ByteOf(c, 0)
    ensures ByteOf((c >> 16) | (c << 8), 2) == ByteOf(c, 1)
    ensures ByteOf((c >> 16) | (c << 8), 3) == ByteOf(c, 2)
  {
  }

  lemma Rgb888WordLe(c: bv32)
    requires c >> 24 == 0
    ensures WordLe(Rgb888Words(c)[0]) == [ByteOf(c, 0), ByteOf(c, 1), ByteOf(c, 2), ByteOf(c, 0)]
    ensures WordLe(Rgb888Words(c)[1]) == [ByteOf(c, 1), ByteOf(c, 2), ByteOf(c, 0), ByteOf(c, 1)]
    ensures WordLe(Rgb888Words(c)[2]) == [ByteOf(c, 2), ByteOf(c, 0), ByteOf(c, 1), ByteOf(c, 2)]
  {
    Rgb888WordBytes(c);
  }

  lemma Repeat4<T>(a: T, b: T, c: T)
    ensures [a, b, c, a] + [b, c, a, b] + [c, a, b, c] == [a, b, c, a, b, c, a, b, c, a, b, c]
  {
  }

  /** For a colour with a clear top byte the three words are four copies of
      its three bytes, low byte first. */
  lemma Rgb888WordsPattern(c: bv32)
    requires c >> 24 == 0
    ensures WordsLe(Rgb888Words(c)) ==
              [ByteOf(c, 0), ByteOf(c, 1), ByteOf(c, 2), ByteOf(c, 0), ByteOf(c, 1), ByteOf(c, 2),
               ByteOf(c, 0), ByteOf(c, 1), ByteOf(c, 2), ByteOf(c, 0), ByteOf(c, 1), ByteOf(c, 2)]
  {
    WordsLe3(Rgb888Words(c));
    Rgb888WordLe(c);
    Repeat4(ByteOf(c, 0), ByteOf(c, 1), ByteOf(c, 2));
  }
}
