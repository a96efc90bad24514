/** What the display driver sends over its two buses, in the order it sends
    it. The PSRAM and the GPU's I2C registers are outside this model; a
    driver operation is specified by the list of transfers it issues. */
module DvBus {
  datatype BusOp =
    /** `ram.write(addr, buf, len)`: the len bytes at buf, in memory order. */
    | RamWrite(addr: nat, data: seq<bv8>)
    /** `ram.write_repeat(addr, word, len)`: len bytes of a repeated word. */
    | RamWriteRepeat(addr: nat, word: bv32, lenBytes: nat)
    /** An I2C write of data to a GPU register. `reg` is recorded as the
        int the driver passes; write_bytes takes it as a uint8_t, so the
        register on the bus is `reg % 256` (a negative sprite number
        given to set_sprite or clear_sprite lands on a register from 176
        up). */
    | I2cWrite(reg: int, data: seq<bv8>)
    /** `ram.read_blocking(addr, buf, len)`: reads len words back. */
    | RamRead(addr: nat, lenWords: nat)
    /** An I2C read of a GPU register. */
    | I2cRead(reg: int)
    /** Selecting which of the two PSRAM banks the RP2040 drives. */
    | RamSelect(bank: nat)
}

/** Sprite data encoding of the display driver: the transparency tests, the
    per-row opaque-span scan and the header-plus-rows layout that
    define_sprite writes into a sprite's slot in PSRAM. */
module DvSprite {
  import opened Bytes
  import opened DvDisplayHeader
  import opened DvBus

  /** A palette sprite pixel is transparent when its alpha bit, bit 0, is clear. */
  function IsTransparent8(v: bv8): (t: bool)
    ensures t <==> !Bit(v, 0)
  {
    (v & 1) == 0
  }

  /** An ARGB1555 sprite pixel is transparent when its alpha bit, bit 15, is clear. */
  function IsTransparent16(v: bv16): (t: bool)
    ensures t <==> v < 0x8000
  {
    (v & 0x8000) == 0
  }

  /** The number of transparent pixels before the first opaque one. */
  function Leading<T>(row: seq<T>, transparent: T -> bool): (n: nat)
    ensures n <= |row|
    decreases |row|
  {
    if row == [] || !transparent(row[0]) then 0 else 1 + Leading(row[1..], transparent)
  }

  /** One past the last opaque pixel, or 0 when the row has none. */
  function SpanEnd<T>(row: seq<T>, transparent: T -> bool): (n: nat)
    ensures n <= |row|
    decreases |row|
  {
    if row == [] then 0
    else if !transparent(row[|row| - 1]) then |row|
    else SpanEnd(row[..|row| - 1], transparent)
  }

  /** The length of the run from the first to the last opaque pixel. */
  function SpanLength<T>(row: seq<T>, transparent: T -> bool): nat
  {
    var e := SpanEnd(row, transparent);
    if e == 0 then 0 else if e >= Leading(row, transparent) then e - Leading(row, transparent) else 0
  }

  lemma {:induction false} LeadingFacts<T>(row: seq<T>, transparent: T -> bool)
    ensures forall k :: 0 <= k < Leading(row, transparent) ==> transparent(row[k])
    ensures Leading(row, transparent) < |row| ==> !transparent(row[Leading(row, transparent)])
    decreases |row|
  {
    if row != [] && transparent(row[0]) {
      LeadingFacts(row[1..], transparent);
      forall k | 0 <= k < Leading(row, transparent) ensures transparent(row[k]) {
        if k > 0 { assert row[k] == row[1..][k - 1]; }
      }
    }
  }

  lemma {:induction false} SpanEndFacts<T>(row: seq<T>, transparent: T -> bool)
    ensures forall k :: SpanEnd(row, transparent) <= k < |row| ==> transparent(row[k])
    ensures SpanEnd(row, transparent) > 0 ==> !transparent(row[SpanEnd(row, transparent) - 1])
    decreases |row|
  {
    if row != [] && transparent(row[|row| - 1]) {
      var init := row[..|row| - 1];
      SpanEndFacts(init, transparent);
      forall k | SpanEnd(row, transparent) <= k < |row| ensures transparent(row[k]) {
        if k < |row| - 1 { assert row[k] == init[k]; }
      }
    }
  }

  /** Every opaque pixel of the row lies in [Leading, Leading + SpanLength),
      both ends of a non-empty span are opaque, and the span is empty
      exactly when the whole row is transparent. */
  lemma SpanCharacterised<T>(row: seq<T>, transparent: T -> bool)
    ensures forall k :: 0 <= k < Leading(row, transparent) ==> transparent(row[k])
    ensures Leading(row, transparent) < |row| ==> !transparent(row[Leading(row, transparent)])
    ensures SpanLength(row, transparent) == 0 <==> forall k :: 0 <= k < |row| ==> transparent(row[k])
    ensures SpanLength(row, transparent) > 0 ==>
              Leading(row, transparent) + SpanLength(row, transparent) <= |row| &&
              !transparent(row[Leading(row, transparent) + SpanLength(row, transparent) - 1])
    ensures forall k :: 0 <= k < |row| && !transparent(row[k]) ==>
              Leading(row, transparent) <= k < Leading(row, transparent) + SpanLength(row, transparent)
  {
    LeadingFacts(row, transparent);
    SpanEndFacts(row, transparent);
    var l, e := Leading(row, transparent), SpanEnd(row, transparent);
    if l < |row| {
      assert !transparent(row[l]);
      assert l < e;
    }
  }

  lemma LeadingSnoc<T>(s: seq<T>, x: T, transparent: T -> bool)
    ensures Leading(s + [x], transparent) ==
              if Leading(s, transparent) == |s| && transparent(x) then |s| + 1
              else Leading(s, transparent)
    decreases |s|
  {
    if s != [] {
      assert (s + [x])[1..] == s[1..] + [x];
      LeadingSnoc(s[1..], x, transparent);
    }
  }

  lemma SpanEndSnoc<T>(s: seq<T>, x: T, transparent: T -> bool)
    ensures SpanEnd(s + [x], transparent) == if !transparent(x) then |s| + 1 else SpanEnd(s, transparent)
  {
    assert (s + [x])[..|s|] == s;
  }

  /** get_sprite_limits: scans one row, keeping the count of leading
      transparent pixels in offset and the length of the opaque span seen so
      far in length. get_sprite_limits keeps both in uint8_t. */
  method GetSpriteLimits<T>(row: seq<T>, transparent: T -> bool) returns (offset: nat, length: nat)
    requires |row| < 256
    ensures offset == Leading(row, transparent)
    ensures length == SpanLength(row, transparent)
    ensures offset < 256 && length < 256
  {
    offset, length := 0, 0;
    var i := 0;
    while i < |row|
      invariant 0 <= i <= |row|
      invariant offset == Leading(row[..i], transparent)
      invariant length == SpanLength(row[..i], transparent)
    {
      var s := row[..i];
      assert row[..i + 1] == s + [row[i]];
      LeadingSnoc(s, row[i], transparent);
      SpanEndSnoc(s, row[i], transparent);
      LeadingFacts(s, transparent);
      SpanEndFacts(s, transparent);
      if offset == i {
        if transparent(row[i]) {
          offset := offset + 1;
        } else {
          length := 1;
        }
      } else if !transparent(row[i]) {
        length := i + 1 - offset;
      }
      i := i + 1;
    }
    assert row[..i] == row;
  }

  /** The rows after the last one with an opaque pixel are dropped, but a
      sprite keeps at least one row: the top is never clipped because it
      fixes where the sprite is drawn. */
  function TrimmedHeight(lengths: seq<nat>, height: nat): (h: nat)
    requires height <= |lengths|
    ensures h <= height
  {
    if height > 1 && lengths[height - 1] == 0 then TrimmedHeight(lengths, height - 1) else height
  }

  lemma {:induction false} TrimmedHeightFacts(lengths: seq<nat>, height: nat)
    requires height <= |lengths|
    ensures height >= 1 ==> TrimmedHeight(lengths, height) >= 1
    ensures forall i :: TrimmedHeight(lengths, height) <= i < height ==> lengths[i] == 0
    ensures TrimmedHeight(lengths, height) > 1 ==> lengths[TrimmedHeight(lengths, height) - 1] != 0
  {
    if height > 1 && lengths[height - 1] == 0 {
      TrimmedHeightFacts(lengths, height - 1);
    }
  }

  /** The pixels handed to define_sprite (ARGB1555, two bytes each) or to
      define_palette_sprite (one byte each: colour in bits 6-2, alpha in bit 0). */
  datatype SpriteData = Argb1555(words: seq<bv16>) | PaletteBytes(bytes: seq<bv8>)

  function BytesPerPixel(d: SpriteData): (n: nat)
    ensures n == 1 || n == 2
  {
    if d.Argb1555? then 2 else 1
  }

  function PixelCount(d: SpriteData): nat
  {
    match d
    case Argb1555(w) => |w|
    case PaletteBytes(b) => |b|
  }

  /** Row i of a sprite width pixels wide; empty past the end of the data. */
  function RowOffset(d: SpriteData, width: nat, i: nat): nat
  {
    if width * (i + 1) > PixelCount(d) then 0
    else match d
      case Argb1555(w) => Leading(w[width * i..width * (i + 1)], IsTransparent16)
      case PaletteBytes(b) => Leading(b[width * i..width * (i + 1)], IsTransparent8)
  }

  function RowLength(d: SpriteData, width: nat, i: nat): nat
  {
    if width * (i + 1) > PixelCount(d) then 0
    else match d
      case Argb1555(w) => SpanLength(w[width * i..width * (i + 1)], IsTransparent16)
      case PaletteBytes(b) => SpanLength(b[width * i..width * (i + 1)], IsTransparent8)
  }

  lemma RowSpanBounds(d: SpriteData, width: nat, i: nat)
    ensures RowOffset(d, width, i) + RowLength(d, width, i) <= width
  {
    if width * (i + 1) <= PixelCount(d) {
      match d
      case Argb1555(w) => SpanCharacterised(w[width * i..width * (i + 1)], IsTransparent16);
      case PaletteBytes(b) => SpanCharacterised(b[width * i..width * (i + 1)], IsTransparent8);
    }
  }

  function RowLengths(d: SpriteData, width: nat, height: nat): (r: seq<nat>)
    ensures |r| == height
  {
    seq(height, i requires 0 <= i < height => RowLength(d, width, i))
  }

  lemma MulSucc(a: nat, b: nat)
    ensures a * b + a == a * (b + 1)
  {
  }

  lemma MulMono(a: nat, b: nat, c: nat)
    requires b <= c
    ensures a * b <= a * c
  {
  }

  /** The memory image of count pixels starting at pixel start. */
  function PixelBytes(d: SpriteData, start: nat, count: nat): (r: seq<bv8>)
    requires start + count <= PixelCount(d)
    ensures |r| == count * BytesPerPixel(d)
  {
    match d
    case Argb1555(w) => HalvesLe(w[start..start + count])
    case PaletteBytes(b) => b[start..start + count]
  }

  /** The number of rows the corrected driver can describe (its row arrays
      hold 64 entries, the documented maximum height). */
  const MAX_SPRITE_ROWS: nat := 64

  /** The sprite header: (height << 8) + width, then (length << 8) | offset
      for every row that is kept. */
  function SpriteHeader(d: SpriteData, width: nat, rows: nat): (h: seq<nat>)
    ensures |h| == rows + 1
  {
    [(rows * 256 + width) % 0x10000] + seq(rows, i requires 0 <= i < rows => RowEntry(d, width, i))
  }

  /** The header entry of row i: (length << 8) | offset. */
  function RowEntry(d: SpriteData, width: nat, i: nat): nat
  {
    RowLength(d, width, i) * 256 + RowOffset(d, width, i)
  }

  /** Where the row data starts: after the header, padded to a word. */
  function DataStart(idx: nat, rows: nat): nat
  {
    var len := 2 * (rows + 1);
    SpriteSlotAddress(idx) + len + (if len % 4 == 2 then 2 else 0)
  }

  /** The bytes of the rows before row i. */
  function RowBytesBefore(d: SpriteData, width: nat, i: nat): nat
  {
    if i == 0 then 0 else RowBytesBefore(d, width, i - 1) + RowLength(d, width, i - 1) * BytesPerPixel(d)
  }

  lemma RowBytesBeforeStep(d: SpriteData, width: nat, i: nat)
    ensures RowBytesBefore(d, width, i + 1) == RowBytesBefore(d, width, i) + RowLength(d, width, i) * BytesPerPixel(d)
  {
  }

  /** The write of the kept part of row i. */
  function RowWrite(d: SpriteData, width: nat, idx: nat, rows: nat, i: nat): BusOp
  {
    var addr := DataStart(idx, rows) + RowBytesBefore(d, width, i);
    if width * (i + 1) > PixelCount(d) then RamWrite(addr, [])
    else
      RowSpanBounds(d, width, i);
      MulSucc(width, i);
      RamWrite(addr, PixelBytes(d, width * i + RowOffset(d, width, i), RowLength(d, width, i)))
  }

  /** The first pixel of row i, and the facts that keep its kept span
      inside the data. */
  lemma RowStart(d: SpriteData, width: nat, idx: nat, rows: nat, i: nat, start: nat)
    requires i < rows && width * rows <= PixelCount(d) && start == width * i
    ensures start + RowOffset(d, width, i) + RowLength(d, width, i) <= PixelCount(d)
    ensures RowWrite(d, width, idx, rows, i) ==
              RamWrite(DataStart(idx, rows) + RowBytesBefore(d, width, i),
                       PixelBytes(d, start + RowOffset(d, width, i), RowLength(d, width, i)))
  {
    MulMono(width, i + 1, rows);
    RowSpanBounds(d, width, i);
    MulSucc(width, i);
  }

  /** The writes of the first n kept rows. */
  function RowWrites(d: SpriteData, width: nat, idx: nat, rows: nat, n: nat): (ops: seq<BusOp>)
    ensures |ops| == n
    ensures forall i :: 0 <= i < n ==> ops[i] == RowWrite(d, width, idx, rows, i)
  {
    seq(n, i requires 0 <= i < n => RowWrite(d, width, idx, rows, i))
  }

  lemma RowWritesStep(d: SpriteData, width: nat, idx: nat, rows: nat, n: nat)
    ensures RowWrites(d, width, idx, rows, n + 1) == RowWrites(d, width, idx, rows, n) + [RowWrite(d, width, idx, rows, n)]
  {
  }

  /** One step of the row-writing loop: the write it issues is row i's and
      the next row starts right after its bytes. */
  lemma RowStep(d: SpriteData, width: nat, idx: nat, rows: nat, i: nat, start: nat,
                addr: nat, offset: nat, length: nat)
    requires i < rows && width * rows <= PixelCount(d) && start == width * i
    requires addr == DataStart(idx, rows) + RowBytesBefore(d, width, i)
    requires offset == RowOffset(d, width, i) && length == RowLength(d, width, i)
    ensures start + offset + length <= PixelCount(d)
    ensures RamWrite(addr, PixelBytes(d, start + offset, length)) == RowWrite(d, width, idx, rows, i)
    ensures addr + length * BytesPerPixel(d) == DataStart(idx, rows) + RowBytesBefore(d, width, i + 1)
  {
    RowStart(d, width, idx, rows, i, start);
    RowBytesBeforeStep(d, width, i);
  }

  /** define_sprite_internal: scans every row for its opaque span, trims
      trailing empty rows, writes the header at the start of slot idx, then
      the opaque span of each kept row, one after the other. */
  method DefineSpriteInternal(idx: nat, width: nat, height: nat, d: SpriteData)
    returns (ops: seq<BusOp>, rows: nat)
    requires idx < 0x10000 && width < 256 && height <= MAX_SPRITE_ROWS
    requires width * height <= PixelCount(d)
    ensures rows == TrimmedHeight(RowLengths(d, width, height), height)
    ensures |ops| == rows + 1
    ensures ops[0] == RamWrite(SpriteSlotAddress(idx), Uint16sLe(SpriteHeader(d, width, rows)))
    ensures forall i :: 0 <= i < rows ==> ops[i + 1] == RowWrite(d, width, idx, rows, i)
  {
    var offsets, lengths := ScanRows(width, height, d);
    rows := height;
    while rows > 1 && lengths[rows - 1] == 0
      invariant rows <= height
      invariant TrimmedHeight(lengths, rows) == TrimmedHeight(lengths, height)
    {
      rows := rows - 1;
    }
    MulMono(width, rows, height);
    var header := HeaderFor(width, rows, offsets, lengths, d);
    ops := [RamWrite(SpriteSlotAddress(idx), Uint16sLe(header))];
    var rowOps := WriteRows(idx, width, rows, offsets, lengths, d);
    ops := ops + rowOps;
    assert forall i :: 0 <= i < rows ==> ops[i + 1] == rowOps[i];
  }

  /** The first loop of define_sprite_internal: the limits of every row. */
  method ScanRows(width: nat, height: nat, d: SpriteData) returns (offsets: seq<nat>, lengths: seq<nat>)
    requires width < 256 && width * height <= PixelCount(d)
    ensures |offsets| == height && lengths == RowLengths(d, width, height)
    ensures forall k :: 0 <= k < height ==> offsets[k] == RowOffset(d, width, k)
  {
    offsets, lengths := [], [];
    var i := 0;
    while i < height
      invariant 0 <= i <= height
      invariant |offsets| == i && |lengths| == i
      invariant forall k :: 0 <= k < i ==> offsets[k] == RowOffset(d, width, k) && lengths[k] == RowLength(d, width, k)
    {
      MulMono(width, i + 1, height);
      var o, l;
      match d {
        case Argb1555(w) =>
          o, l := GetSpriteLimits(w[width * i..width * (i + 1)], IsTransparent16);
        case PaletteBytes(b) =>
          o, l := GetSpriteLimits(b[width * i..width * (i + 1)], IsTransparent8);
      }
      offsets, lengths := offsets + [o], lengths + [l];
      i := i + 1;
    }
  }

  method HeaderFor(width: nat, rows: nat, offsets: seq<nat>, lengths: seq<nat>, d: SpriteData)
    returns (header: seq<nat>)
    requires width < 256 && rows <= MAX_SPRITE_ROWS && rows <= |offsets| && rows <= |lengths|
    requires forall k :: 0 <= k < rows ==> offsets[k] == RowOffset(d, width, k) && lengths[k] == RowLength(d, width, k)
    ensures header == SpriteHeader(d, width, rows)
  {
    header := [(rows * 256 + width) % 0x10000];
    var i := 0;
    while i < rows
      invariant 0 <= i <= rows
      invariant |header| == i + 1 && header[0] == (rows * 256 + width) % 0x10000
      invariant forall k :: 0 <= k < i ==> header[k + 1] == RowEntry(d, width, k)
    {
      var e := lengths[i] * 256 + offsets[i];
      header := header + [e];
      i := i + 1;
    }
    assert header == SpriteHeader(d, width, rows);
  }

  method WriteRows(idx: nat, width: nat, rows: nat, offsets: seq<nat>, lengths: seq<nat>, d: SpriteData)
    returns (ops: seq<BusOp>)
    requires rows <= |offsets| && rows <= |lengths| && width * rows <= PixelCount(d)
    requires forall k :: 0 <= k < rows ==> offsets[k] == RowOffset(d, width, k) && lengths[k] == RowLength(d, width, k)
    ensures ops == RowWrites(d, width, idx, rows, rows)
  {
    var len := 2 * (rows + 1);
    var addr := SpriteSlotAddress(idx) + len;
    if len % 4 == 2 { addr := addr + 2; }
    assert addr == DataStart(idx, rows);
    ops := [];
    var i := 0;
    while i < rows
      invariant 0 <= i <= rows
      invariant ops == RowWrites(d, width, idx, rows, i)
      invariant addr == DataStart(idx, rows) + RowBytesBefore(d, width, i)
    {
      var start := width * i;
      RowStep(d, width, idx, rows, i, start, addr, offsets[i], lengths[i]);
      var op := RamWrite(addr, PixelBytes(d, start + offsets[i], lengths[i]));
      RowWritesStep(d, width, idx, rows, i);
      ops := ops + [op];
      addr := addr + lengths[i] * BytesPerPixel(d);
      i := i + 1;
    }
  }

  /** The header reads back as the sprite's height and width, then the
      length and offset of each kept row. */
  lemma SpriteHeaderDecodes(d: SpriteData, width: nat, rows: nat)
    requires width < 256 && rows <= MAX_SPRITE_ROWS
    ensures SpriteHeader(d, width, rows)[0] / 256 == rows
    ensures SpriteHeader(d, width, rows)[0] % 256 == width
    ensures forall i :: 0 <= i < rows ==>
              SpriteHeader(d, width, rows)[i + 1] < 0x10000 &&
              SpriteHeader(d, width, rows)[i + 1] / 256 == RowLength(d, width, i) &&
              SpriteHeader(d, width, rows)[i + 1] % 256 == RowOffset(d, width, i)
  {
    var h := SpriteHeader(d, width, rows);
    forall i | 0 <= i < rows
      ensures h[i + 1] < 0x10000 && h[i + 1] / 256 == RowLength(d, width, i) && h[i + 1] % 256 == RowOffset(d, width, i)
    {
      RowSpanBounds(d, width, i);
    }
  }

  /** The row data starts on a word boundary right after the header. */
  lemma DataStartAligned(idx: nat, rows: nat)
    ensures DataStart(idx, rows) % 4 == 0
    ensures SpriteSlotAddress(idx) + 2 * (rows + 1) <= DataStart(idx, rows) <= SpriteSlotAddress(idx) + 2 * (rows + 1) + 2
  {
    var q := SPRITE_BASE_ADDRESS / 4 + idx * (SPRITE_SIZE / 4);
    assert SpriteSlotAddress(idx) == 4 * q;
    var len := 2 * (rows + 1);
    var h := rows / 2;
    var k: nat;
    if rows % 2 == 0 {
      assert rows == 2 * h;
      assert len == 4 * h + 2;
      Bytes.ModUnique(len, 4, h, 2);
      k := q + h + 1;
    } else {
      assert rows == 2 * h + 1;
      assert len == 4 * (h + 1);
      Bytes.ModUnique(len, 4, h + 1, 0);
      k := q + h + 1;
    }
    assert DataStart(idx, rows) == 4 * k;
    Bytes.ModUnique(4 * k, 4, k, 0);
  }

  /** Each row's data follows the previous row's data without a gap. */
  lemma RowWritesContiguous(d: SpriteData, width: nat, idx: nat, rows: nat, i: nat)
    requires i + 1 < rows && width * rows <= PixelCount(d)
    ensures RowWrite(d, width, idx, rows, i + 1).addr ==
              RowWrite(d, width, idx, rows, i).addr + |RowWrite(d, width, idx, rows, i).data|
  {
    RowStart(d, width, idx, rows, i, width * i);
    RowStart(d, width, idx, rows, i + 1, width * (i + 1));
    RowBytesBeforeStep(d, width, i);
  }

  lemma {:induction false} RowBytesBeforeBound(d: SpriteData, width: nat, i: nat)
    ensures RowBytesBefore(d, width, i) <= i * width * BytesPerPixel(d)
  {
    if i > 0 {
      RowBytesBeforeBound(d, width, i - 1);
      RowSpanBounds(d, width, i - 1);
      var b := BytesPerPixel(d);
      assert RowLength(d, width, i - 1) * b <= width * b;
      assert (i - 1) * width * b + width * b == i * width * b;
    }
  }

  /** A sprite within the documented limits (at most 2 KB of pixels and 64
      rows) fits its header, padding and data in its SPRITE_SIZE slot. */
  lemma SpriteFitsSlot(d: SpriteData, width: nat, idx: nat, rows: nat)
    requires rows <= MAX_SPRITE_ROWS && rows * width * BytesPerPixel(d) <= 2048
    ensures DataStart(idx, rows) + RowBytesBefore(d, width, rows) <= SpriteSlotAddress(idx) + SPRITE_SIZE
  {
    RowBytesBeforeBound(d, width, rows);
    DataStartAligned(idx, rows);
  }

  /** Trimming keeps at least one row of a non-empty sprite, and every row it
      drops is fully transparent. */
  lemma TrimDropsOnlyEmptyRows(d: SpriteData, width: nat, height: nat, i: nat, start: nat)
    requires width * height <= PixelCount(d)
    requires TrimmedHeight(RowLengths(d, width, height), height) <= i < height
    requires start == width * i
    ensures start + width <= PixelCount(d)
    ensures TrimmedHeight(RowLengths(d, width, height), height) >= 1
    ensures d.Argb1555? ==> forall j :: start <= j < start + width ==> IsTransparent16(d.words[j])
    ensures d.PaletteBytes? ==> forall j :: start <= j < start + width ==> IsTransparent8(d.bytes[j])
  {
    var lengths := RowLengths(d, width, height);
    TrimmedHeightFacts(lengths, height);
    assert lengths[i] == 0;
    var end := width * (i + 1);
    MulMono(width, i + 1, height);
    assert end <= PixelCount(d);
    assert start + width == end;
    match d
    case Argb1555(w) =>
      assert SpanLength(w[start..end], IsTransparent16) == lengths[i];
      EmptySpanRow(w, start, width, IsTransparent16);
    case PaletteBytes(b) =>
      assert SpanLength(b[start..end], IsTransparent8) == lengths[i];
      EmptySpanRow(b, start, width, IsTransparent8);
  }

  lemma EmptySpanRow<T>(s: seq<T>, start: nat, width: nat, transparent: T -> bool)
    requires start + width <= |s| && SpanLength(s[start..start + width], transparent) == 0
    ensures forall j :: start <= j < start + width ==> transparent(s[j])
  {
    var row := s[start..start + width];
    SpanCharacterised(row, transparent);
    forall j | start <= j < start + width ensures transparent(s[j]) {
      assert s[j] == row[j - start];
    }
  }

  /** The row arrays of define_sprite_internal as written: uint8_t
      offsets[32] and lengths[32]. */
  const ROW_ARRAY_LEN_AS_WRITTEN: nat := 32

  /** The rows that the arrays as written can describe without writing past
      their end. */
  predicate RowsFitAsWritten(height: nat)
  {
    height <= ROW_ARRAY_LEN_AS_WRITTEN
  }

  /** The sprite sizes the driver documents as possible: at most 64 pixels
      each way and at most 2 KB of pixel data. */
  predicate DocumentedSpriteSize(width: nat, height: nat, bytesPerPixel: nat)
  {
    width <= 64 && height <= 64 && width * height * bytesPerPixel <= 2048
  }

  /** The documented 16x64 ARGB1555 sprite (and the 45x45 palette sprite)
      has more rows than the arrays as written hold. */
  lemma DocumentedSizesOverflowRowArrays()
    ensures DocumentedSpriteSize(16, 64, 2) && !RowsFitAsWritten(64)
    ensures DocumentedSpriteSize(45, 45, 1) && !RowsFitAsWritten(45)
  {
  }

  /** With 64-entry arrays every documented size is described, and the
      header of at most 65 halfwords fits the 33-word header buffer. */
  lemma DocumentedSizesFitCorrected(width: nat, height: nat, bytesPerPixel: nat)
    requires DocumentedSpriteSize(width, height, bytesPerPixel)
    ensures height <= MAX_SPRITE_ROWS
    ensures 2 * (height + 1) <= 33 * 4
  {
  }
}
