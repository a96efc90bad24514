/** The MicroPython `picographics` module's own logic for the PicoVision:
    the buffer size of each pen type, the frame-size defaults of the
    constructor, the PNG-or-raw-sprite choice of load_sprite, the argument
    checks of set_palette and polygon, the byte masking of update_pen and
    create_pen, and the scanline callback that turns decoded PNG rows into
    ARGB1555 sprite pixels. */
module PicoGraphicsModule {
  import opened Wrappers
  import opened Bytes
  import opened DvDisplayHeader
  import opened DvSprite
  import PicoGraphicsDv

  // ---------------------------------------------------------------------
  // Pen types and buffer sizes
  // ---------------------------------------------------------------------

  /** PicoGraphicsPenType, numbered as the enum declares it. */
  const PEN_1BIT: int := 0
  const PEN_RGB888: int := 7
  const PEN_DV_RGB888: int := 9
  const PEN_DV_RGB555: int := 10
  const PEN_DV_P5: int := 11

  /** get_required_buffer_size: the frame buffer a pen type needs, from its
      pen class; only the three PicoVision pens have one. */
  function RequiredBufferSize(penType: int, width: nat, height: nat): (n: nat)
    requires width < U32 && height < U32
    ensures penType == PEN_DV_RGB888 ==> n == PicoGraphicsDv.BufferSizeRgb888(width, height)
    ensures penType == PEN_DV_RGB555 ==> n == PicoGraphicsDv.BufferSizeRgb555(width, height)
    ensures penType == PEN_DV_P5 ==> n == PicoGraphicsDv.BufferSizeP5(width, height)
    ensures penType !in {PEN_DV_RGB888, PEN_DV_RGB555, PEN_DV_P5} ==> n == 0
  {
    if penType == PEN_DV_RGB888 then PicoGraphicsDv.BufferSizeRgb888(width, height)
    else if penType == PEN_DV_RGB555 then PicoGraphicsDv.BufferSizeRgb555(width, height)
    else if penType == PEN_DV_P5 then PicoGraphicsDv.BufferSizeP5(width, height)
    else 0
  }

  /** Every PicoVision pen whose frame fits in 32 bits gets a buffer of at
      least one byte per pixel, the RGB pens of two and four. */
  lemma BufferHoldsEveryPixel(penType: int, width: nat, height: nat)
    requires width < U32 && height < U32 && 4 * width * height < U32
    requires penType in {PEN_DV_RGB888, PEN_DV_RGB555, PEN_DV_P5}
    ensures RequiredBufferSize(penType, width, height) >= width * height
    ensures penType == PEN_DV_RGB555 ==> RequiredBufferSize(penType, width, height) == 2 * width * height
    ensures penType == PEN_DV_RGB888 ==> RequiredBufferSize(penType, width, height) == 4 * width * height
  {
  }

  // ---------------------------------------------------------------------
  // The constructor's frame size and display mode
  // ---------------------------------------------------------------------

  /** What ModPicoGraphics_make_new sets up: an unspecified (-1) frame width
      or height takes the display's, and each PicoVision pen puts the
      driver in its mode; any other pen type sets no mode. */
  datatype Setup = Setup(frameWidth: int, frameHeight: int, mode: Option<Mode>)

  function MakeNew(penType: int, width: int, height: int, frameWidthArg: int, frameHeightArg: int): (s: Setup)
    ensures s.frameWidth == (if frameWidthArg == -1 then width else frameWidthArg)
    ensures s.frameHeight == (if frameHeightArg == -1 then height else frameHeightArg)
    ensures s.mode.Some? <==> penType in {PEN_DV_RGB888, PEN_DV_RGB555, PEN_DV_P5}
  {
    var fw := if frameWidthArg == -1 then width else frameWidthArg;
    var fh := if frameHeightArg == -1 then height else frameHeightArg;
    var mode := if penType == PEN_DV_RGB888 then Some(ModeRgb888)
                else if penType == PEN_DV_RGB555 then Some(ModeRgb555)
                else if penType == PEN_DV_P5 then Some(ModePalette)
                else None;
    Setup(fw, fh, mode)
  }

  /** make_new's arguments in their declared order: display (required),
      pen_type, width, height, frame_width, frame_height. */
  datatype MakeNewArgs = MakeNewArgs(display: int, penType: int, width: int, height: int,
                                     frameWidth: int, frameHeight: int)

  /** Positional argument i, or the parameter's default when fewer were given. */
  function ArgOr(ps: seq<int>, i: nat, default: int): int
  {
    if i < |ps| then ps[i] else default
  }

  /** How positional-only arguments bind to make_new's parameters: in
      declaration order, each missing one taking its default. The required
      display must be given, and at most six arguments are accepted. */
  function BindPositional(ps: seq<int>): (r: Option<MakeNewArgs>)
    ensures r.Some? <==> 1 <= |ps| <= 6
    ensures r.Some? ==> r.value.display == ps[0]
    ensures r.Some? && |ps| >= 2 ==> r.value.penType == ps[1]
    ensures r.Some? && |ps| < 2 ==> r.value.penType == PEN_DV_RGB888
    ensures r.Some? && |ps| < 3 ==> r.value.width == 320
    ensures r.Some? && |ps| < 4 ==> r.value.height == 240
    ensures r.Some? && |ps| < 6 ==> r.value.frameHeight == -1
  {
    if |ps| < 1 || |ps| > 6 then None
    else Some(MakeNewArgs(ps[0], ArgOr(ps, 1, PEN_DV_RGB888), ArgOr(ps, 2, 320), ArgOr(ps, 3, 240),
                          ArgOr(ps, 4, -1), ArgOr(ps, 5, -1)))
  }

  /** make_new on bound arguments; the display argument is not used. */
  function Construct(a: MakeNewArgs): (s: Setup)
    ensures s == MakeNew(a.penType, a.width, a.height, a.frameWidth, a.frameHeight)
  {
    MakeNew(a.penType, a.width, a.height, a.frameWidth, a.frameHeight)
  }

  /** The constructor's defaults (pen DV_RGB888, 320 by 240, frames -1)
      give a 320 by 240 frame in RGB888 mode. */
  lemma MakeNewDefaults()
    ensures MakeNew(PEN_DV_RGB888, 320, 240, -1, -1) == Setup(320, 240, Some(ModeRgb888))
  {
  }

  /** Each pen type gets the display mode that stores its pixels. */
  lemma MakeNewModes(width: int, height: int, fw: int, fh: int)
    ensures MakeNew(PEN_DV_RGB888, width, height, fw, fh).mode == Some(ModeRgb888)
    ensures MakeNew(PEN_DV_RGB555, width, height, fw, fh).mode == Some(ModeRgb555)
    ensures MakeNew(PEN_DV_P5, width, height, fw, fh).mode == Some(ModePalette)
  {
  }

  // ---------------------------------------------------------------------
  // load_sprite: a PNG or a raw PicoVision sprite
  // ---------------------------------------------------------------------

  /** The eight-byte PNG signature of section 5.2 of the PNG specification
      (ISO/IEC 15948): 137, 'P', 'N', 'G', CR, LF, SUB, LF. */
  const PNG_SIGNATURE: seq<bv8> := [137, 80, 78, 71, 13, 10, 26, 10]

  /** load_sprite's test: the data starts with the PNG signature. None of
      the signature bytes is 0, so the strncmp is a plain comparison of
      the first eight bytes. */
  predicate IsPng(data: seq<bv8>)
  {
    |data| >= |PNG_SIGNATURE| && data[..|PNG_SIGNATURE|] == PNG_SIGNATURE
  }

  /** How load_sprite defines the sprite. */
  datatype SpriteLoad =
    /** load_pvs_sprite of the whole data. */
    | RawSprite(index: int, data: seq<bv8>)
    /** The PNG branch: a decoder object is set up by hand, decoded and its
        buffer passed to define_sprite. What that allocates and defines as
        written is PngBranchAsWritten; what it evidently means is
        PngBranch. */
    | PngSprite(index: int)

  function LoadSprite(index: int, data: seq<bv8>): (l: SpriteLoad)
    ensures l.PngSprite? <==> IsPng(data)
    ensures l.RawSprite? ==> l.data == data && l.index == index
    ensures l.PngSprite? ==> l.index == index
  {
    if IsPng(data) then PngSprite(index) else RawSprite(index, data)
  }

  /** Data that starts with the signature is decoded as a PNG whatever
      follows, and data whose first byte is not 137 (every raw sprite
      header whose low byte, the width, is not 137) is loaded raw. */
  lemma SignatureDecides(rest: seq<bv8>, data: seq<bv8>)
    ensures LoadSprite(0, PNG_SIGNATURE + rest).PngSprite?
    ensures |data| > 0 && data[0] != 137 ==> LoadSprite(0, data) == RawSprite(0, data)
  {
    assert (PNG_SIGNATURE + rest)[..8] == PNG_SIGNATURE;
  }

  // ---------------------------------------------------------------------
  // load_sprite's PNG branch
  // ---------------------------------------------------------------------

  /** The fields of `_PNG_obj_t` in memory order, as picographics.cpp:35-46
      declares it for load_sprite. */
  const LOAD_SPRITE_PNG_FIELDS: seq<string> :=
    ["base", "png", "dither_buffer", "file", "buf",
     "decode_callback", "decode_target", "decode_into_buffer", "width", "height"]

  /** The same struct as pngdec.cpp:22-29 declares it, the declaration
      _PNG_openFILE and _PNG_decode are compiled against. */
  const DECODER_PNG_FIELDS: seq<string> :=
    ["base", "png", "dither_buffer", "file", "buf", "graphics"]

  /** The two declarations agree field for field up to `buf` and then part,
      so the word _PNG_decode reads as `self->graphics` (pngdec.cpp:293,
      :316) is the one load_sprite stored the PNGDrawSprite pointer in
      (picographics.cpp:273). */
  lemma DecodeReadsCallbackSlot()
    ensures |DECODER_PNG_FIELDS| <= |LOAD_SPRITE_PNG_FIELDS|
    ensures DECODER_PNG_FIELDS[..5] == LOAD_SPRITE_PNG_FIELDS[..5]
    ensures DECODER_PNG_FIELDS[5] == "graphics" && LOAD_SPRITE_PNG_FIELDS[5] == "decode_callback"
  {
  }

  /** The fields of the decoder object that load_sprite's PNG branch sets
      and then reads: the source and the image size. */
  datatype SpriteDecoder = SpriteDecoder(file: seq<bv8>, width: int, height: int)

  /** _PNG_openFILE stores the source and nothing else; the size is not
      read from the image. */
  function OpenFile(d: SpriteDecoder, file: seq<bv8>): (e: SpriteDecoder)
    ensures e.file == file && e.width == d.width && e.height == d.height
  {
    d.(file := file)
  }

  /** The size the PNG branch passes to define_sprite and the number of
      halfwords of the decode buffer it allocates. */
  datatype SpriteAlloc = SpriteAlloc(width: int, height: int, halfwords: int)

  /** The PNG branch as written: width and height start at 0, OpenFile
      keeps them, and the buffer is width * height halfwords, passed with
      that size to define_sprite. */
  function PngBranchAsWritten(data: seq<bv8>): (a: SpriteAlloc)
    ensures a.halfwords == a.width * a.height
  {
    var d := OpenFile(SpriteDecoder([], 0, 0), data);
    SpriteAlloc(d.width, d.height, d.width * d.height)
  }

  /** Whatever the data, the branch as written allocates no buffer and
      defines a 0 by 0 sprite, so no row of an image w pixels wide fits. */
  lemma PngBranchAllocatesNothing(data: seq<bv8>, w: nat)
    ensures PngBranchAsWritten(data) == SpriteAlloc(0, 0, 0)
    ensures w > 0 ==> PngBranchAsWritten(data).halfwords < w
  {
  }

  /** The PNG branch as evidently intended: the size of the opened image
      (the decoder's width and height, as decode_as_sprite reads them at
      pngdec.cpp:378-382) sizes the buffer and the sprite. */
  function PngBranch(pngWidth: nat, pngHeight: nat): (a: SpriteAlloc)
    ensures a.width == pngWidth && a.height == pngHeight
  {
    SpriteAlloc(pngWidth, pngHeight, pngWidth * pngHeight)
  }

  /** With the intended sizing every row of the image lies inside the
      buffer, and the buffer is exactly the image. */
  lemma PngBranchHoldsRows(pngWidth: nat, pngHeight: nat, y: nat)
    requires y < pngHeight
    ensures y * pngWidth + pngWidth <= PngBranch(pngWidth, pngHeight).halfwords
    ensures PngBranch(pngWidth, pngHeight).halfwords == pngWidth * pngHeight
  {
    SpriteRowsFit(pngWidth, pngHeight, y);
  }

  // ---------------------------------------------------------------------
  // Argument checks of set_palette and polygon
  // ---------------------------------------------------------------------

  /** The Python values these functions are called with. */
  datatype PyObj = PyInt(v: int) | PyTuple(items: seq<PyObj>) | PyList(elems: seq<PyObj>) | PyOther

  datatype PyError = TypeError(msg: string) | ValueError(msg: string) | RuntimeError(msg: string)

  /** The tuples a call works through: with a single argument it must be a
      non-empty list, whose items are the tuples; otherwise the arguments
      themselves are. `who` is the name in the messages. */
  function ArgumentTuples(args: seq<PyObj>, who: string): (r: Result<seq<PyObj>, PyError>)
    ensures r.Err? <==> |args| == 1 && (!args[0].PyList? || |args[0].elems| == 0)
    ensures r.Err? && !args[0].PyList? ==> r.error.TypeError?
    ensures r.Err? && args[0].PyList? ==> r.error.ValueError?
    ensures r.Ok? && |args| == 1 ==> r.value == args[0].elems
    ensures r.Ok? && |args| != 1 ==> r.value == args
  {
    if |args| == 1 then
      if args[0].PyList? then
        if |args[0].elems| == 0 then Err(ValueError(who + "(): cannot provide an empty list"))
        else Ok(args[0].elems)
      else Err(TypeError(who + "(): can't convert object to list"))
    else Ok(args)
  }

  /** A tuple of n integers. */
  predicate IsIntTuple(o: PyObj, n: nat)
  {
    o.PyTuple? && |o.items| == n && forall i :: 0 <= i < n ==> o.items[i].PyInt?
  }

  /** The error an entry that is not a tuple of n integers raises: not a
      tuple, the wrong length, or an item mp_obj_get_int cannot convert. */
  function EntryError(o: PyObj, n: nat, who: string, lengthMsg: string): (e: PyError)
    requires !IsIntTuple(o, n)
    ensures (!o.PyTuple? || |o.items| != n) <==> e.ValueError?
  {
    if !o.PyTuple? then ValueError(who + "(): can't convert object to tuple")
    else if |o.items| != n then ValueError(who + "(): " + lengthMsg)
    else TypeError("can't convert to int")
  }

  /** update_pen(i, r, g, b) as set_palette calls it. */
  datatype PenUpdate = PenUpdate(index: nat, r: int, g: int, b: int)

  /** The update an entry of integers makes at palette index i. */
  function EntryUpdate(i: nat, o: PyObj): (u: PenUpdate)
    requires IsIntTuple(o, 3)
    ensures u.index == i
  {
    PenUpdate(i, o.items[0].v, o.items[1].v, o.items[2].v)
  }

  /** set_palette: entry i sets pen i to the entry's three integers, in
      order, until the first entry that is not a 3-tuple of integers, which
      raises. The updates before it have been made. The calls are recorded
      with the components as the integers were given; update_pen's uint8_t
      parameters truncate them at the pen, as UpdatePenArgs and Mask8
      state. */
  method SetPalette(args: seq<PyObj>) returns (calls: seq<PenUpdate>, err: Option<PyError>)
    ensures ArgumentTuples(args, "set_palette").Err? ==>
              calls == [] && err == Some(ArgumentTuples(args, "set_palette").error)
    ensures ArgumentTuples(args, "set_palette").Ok? ==>
              var entries := ArgumentTuples(args, "set_palette").value;
              |calls| <= |entries| &&
              (forall i :: 0 <= i < |calls| ==> IsIntTuple(entries[i], 3) && calls[i] == EntryUpdate(i, entries[i])) &&
              (err.None? <==> forall i :: 0 <= i < |entries| ==> IsIntTuple(entries[i], 3)) &&
              (err.None? ==> |calls| == |entries|) &&
              (err.Some? ==> |calls| < |entries| && !IsIntTuple(entries[|calls|], 3) &&
                             err.value == EntryError(entries[|calls|], 3, "set_palette", "tuple must contain R, G, B values"))
  {
    var tuples := ArgumentTuples(args, "set_palette");
    if tuples.Err? {
      return [], Some(tuples.error);
    }
    var entries := tuples.value;
    calls := [];
    var i := 0;
    while i < |entries|
      invariant 0 <= i <= |entries| && |calls| == i
      invariant forall k :: 0 <= k < i ==> IsIntTuple(entries[k], 3) && calls[k] == EntryUpdate(k, entries[k])
    {
      var obj := entries[i];
      if !IsIntTuple(obj, 3) {
        return calls, Some(EntryError(obj, 3, "set_palette", "tuple must contain R, G, B values"));
      }
      calls := calls + [EntryUpdate(i, obj)];
      i := i + 1;
    }
    err := None;
  }

  /** A point of a polygon. */
  datatype Point = Point(x: int, y: int)

  /** polygon: the points of a list of 2-tuples of integers, checked as
      set_palette checks its entries. A call with no points draws nothing;
      the graphics polygon is drawn only for a non-empty list. */
  method Polygon(args: seq<PyObj>) returns (r: Result<seq<Point>, PyError>)
    ensures ArgumentTuples(args, "poly").Err? ==> r == Err(ArgumentTuples(args, "poly").error)
    ensures ArgumentTuples(args, "poly").Ok? ==>
              var entries := ArgumentTuples(args, "poly").value;
              (r.Ok? <==> forall i :: 0 <= i < |entries| ==> IsIntTuple(entries[i], 2)) &&
              (r.Ok? ==> |r.value| == |entries| &&
                         forall i :: 0 <= i < |entries| ==>
                           r.value[i] == Point(entries[i].items[0].v, entries[i].items[1].v)) &&
              (r.Err? ==> exists i :: 0 <= i < |entries| && !IsIntTuple(entries[i], 2) &&
                            (forall k :: 0 <= k < i ==> IsIntTuple(entries[k], 2)) &&
                            r.error == EntryError(entries[i], 2, "poly", "tuple must only contain two numbers"))
  {
    var tuples := ArgumentTuples(args, "poly");
    if tuples.Err? {
      return Err(tuples.error);
    }
    var entries := tuples.value;
    var points := [];
    var i := 0;
    while i < |entries|
      invariant 0 <= i <= |entries| && |points| == i
      invariant forall k :: 0 <= k < i ==>
                  IsIntTuple(entries[k], 2) && points[k] == Point(entries[k].items[0].v, entries[k].items[1].v)
    {
      var obj := entries[i];
      if !IsIntTuple(obj, 2) {
        return Err(EntryError(obj, 2, "poly", "tuple must only contain two numbers"));
      }
      points := points + [Point(obj.items[0].v, obj.items[1].v)];
      i := i + 1;
    }
    r := Ok(points);
  }

  // ---------------------------------------------------------------------
  // update_pen and create_pen
  // ---------------------------------------------------------------------

  /** `v & 0xff` of a C int: its low byte, the two's-complement residue. */
  function Mask8(v: int): (m: nat)
    ensures m < 256 && (v - m) % 256 == 0
    ensures 0 <= v < 256 ==> m == v
  {
    v % 256
  }

  /** The arguments update_pen passes on: index and components masked to a
      byte each. */
  function UpdatePenArgs(i: int, r: int, g: int, b: int): (u: PenUpdate)
    ensures u.index < 256 && 0 <= u.r < 256 && 0 <= u.g < 256 && 0 <= u.b < 256
  {
    PenUpdate(Mask8(i), Mask8(r), Mask8(g), Mask8(b))
  }

  /** Masking keeps byte arguments and wraps the others: 256 more or less
      is the same pen, and -1 is component 255. */
  lemma UpdatePenArgsWrap(i: int, r: int, g: int, b: int)
    ensures UpdatePenArgs(i + 256, r - 256, g + 512, b) == UpdatePenArgs(i, r, g, b)
    ensures UpdatePenArgs(-1, -1, -1, -1) == PenUpdate(255, 255, 255, 255)
    ensures 0 <= i < 256 && 0 <= r < 256 && 0 <= g < 256 && 0 <= b < 256 ==>
              UpdatePenArgs(i, r, g, b) == PenUpdate(i, r, g, b)
  {
  }

  /** create_pen's result as Python sees it: the pen's result, or a
      ValueError when the pen returned -1 (no free palette entry). */
  function CreatePenResult(result: int): (r: Result<int, PyError>)
    ensures r.Err? <==> result == -1
    ensures r.Err? ==> r.error.ValueError?
    ensures r.Ok? ==> r.value == result
  {
    if result == -1 then Err(ValueError("create_pen failed. No matching colour or space in palette!"))
    else Ok(result)
  }

  // ---------------------------------------------------------------------
  // Decoded PNG rows
  // ---------------------------------------------------------------------

  /** The PNG colour types the callbacks handle (section 6.1 of the PNG
      specification). */
  const PNG_PIXEL_TRUECOLOR: nat := 2
  const PNG_PIXEL_INDEXED: nat := 3
  const PNG_PIXEL_TRUECOLOR_ALPHA: nat := 6

  /** One decoded row as the PNG decoder hands it to a draw callback: the
      row number, its width, colour type, bits per pixel, whether the
      palette has an alpha table, the pixel bytes and the palette (256 RGB
      triples, then 256 alpha bytes). */
  datatype PngRow = PngRow(y: nat, width: nat, pixelType: nat, bpp: nat, hasAlpha: bool,
                           pixels: seq<bv8>, palette: seq<bv8>)

  /** The row holds the bytes its pixels are read from. */
  predicate WellFormed(row: PngRow)
  {
    (row.pixelType == PNG_PIXEL_TRUECOLOR ==> |row.pixels| >= 3 * row.width) &&
    (row.pixelType == PNG_PIXEL_TRUECOLOR_ALPHA ==> |row.pixels| >= 4 * row.width) &&
    (row.pixelType == PNG_PIXEL_INDEXED ==>
       |row.palette| >= 768 + (if row.hasAlpha then 256 else 0) &&
       |row.pixels| >= (if row.bpp == 8 then row.width else (row.width + 1) / 2))
  }

  /** The colour types the callbacks draw; rows of every other type (grey
      and grey with alpha) are skipped. */
  predicate Drawn(row: PngRow)
  {
    row.pixelType in {PNG_PIXEL_TRUECOLOR, PNG_PIXEL_TRUECOLOR_ALPHA, PNG_PIXEL_INDEXED}
  }

  /** The palette index of pixel x of an indexed row: the byte at 8 bits
      per pixel, otherwise a nibble of byte x / 2, the high one for even x
      and the low one for odd x. */
  function PaletteIndex(row: PngRow, x: nat): (i: bv8)
    requires WellFormed(row) && row.pixelType == PNG_PIXEL_INDEXED && x < row.width
    ensures row.bpp != 8 ==> i < 16
  {
    if row.bpp == 8 then row.pixels[x]
    else (row.pixels[x / 2] >> (if x % 2 == 1 then 0 else 4)) & 0xF
  }

  /** The nibbles of a byte are its two pixels, high first: an even pixel
      and the odd one after it together rebuild the byte. */
  lemma NibblesRebuildByte(row: PngRow, x: nat)
    requires WellFormed(row) && row.pixelType == PNG_PIXEL_INDEXED && row.bpp != 8
    requires x % 2 == 0 && x + 1 < row.width
    ensures (PaletteIndex(row, x) << 4) | PaletteIndex(row, x + 1) == row.pixels[x / 2]
  {
    assert (x + 1) / 2 == x / 2;
    NibblesOf(row.pixels[x / 2]);
  }

  lemma NibblesOf(b: bv8)
    ensures (((b >> 4) & 0xF) << 4) | (b & 0xF) == b
  {
  }

  /** A pixel's colour as the callbacks read it, and whether it is opaque:
      truecolour is always opaque; truecolour with alpha is opaque when its
      alpha byte is not 0; an indexed pixel takes its palette entry and is
      opaque unless the palette's alpha table gives it 0. */
  datatype Rgba = Rgba(r: bv8, g: bv8, b: bv8, visible: bool)

  function PixelColour(row: PngRow, x: nat): (c: Rgba)
    requires WellFormed(row) && Drawn(row) && x < row.width
    ensures row.pixelType == PNG_PIXEL_TRUECOLOR ==> c.visible
    ensures row.pixelType == PNG_PIXEL_TRUECOLOR_ALPHA ==> (c.visible <==> row.pixels[4 * x + 3] != 0)
    ensures row.pixelType == PNG_PIXEL_INDEXED ==>
              (c.visible <==> !row.hasAlpha || row.palette[768 + PaletteIndex(row, x) as nat] != 0)
  {
    if row.pixelType == PNG_PIXEL_TRUECOLOR then
      Rgba(row.pixels[3 * x], row.pixels[3 * x + 1], row.pixels[3 * x + 2], true)
    else if row.pixelType == PNG_PIXEL_TRUECOLOR_ALPHA then
      Rgba(row.pixels[4 * x], row.pixels[4 * x + 1], row.pixels[4 * x + 2], row.pixels[4 * x + 3] != 0)
    else
      var i := PaletteIndex(row, x) as nat;
      Rgba(row.palette[3 * i], row.palette[3 * i + 1], row.palette[3 * i + 2],
           !row.hasAlpha || row.palette[768 + i] != 0)
  }

  // ---------------------------------------------------------------------
  // PNGDrawSprite
  // ---------------------------------------------------------------------

  /** The ARGB1555 sprite pixel of a colour: bit 15 the opacity, then the
      top five bits of red, green and blue. */
  function Argb1555(c: Rgba): bv16
  {
    (if c.visible then 0x8000 else 0) | ((c.r as bv16 & 0xF8) << 7) | ((c.g as bv16 & 0xF8) << 2) | (c.b as bv16 >> 3)
  }

  /** The fields of an ARGB1555 pixel give back the colour's top five bits
      per channel, and the display driver finds it transparent exactly
      when the colour is not opaque. */
  lemma Argb1555Fields(c: Rgba)
    ensures (Argb1555(c) >> 10) & 0x1F == (c.r >> 3) as bv16
    ensures (Argb1555(c) >> 5) & 0x1F == (c.g >> 3) as bv16
    ensures Argb1555(c) & 0x1F == (c.b >> 3) as bv16
    ensures IsTransparent16(Argb1555(c)) <==> !c.visible
  {
    Argb1555Red(c);
    Argb1555Green(c);
    Argb1555Blue(c);
    Argb1555Alpha(c);
  }

  lemma Argb1555Red(c: Rgba)
    ensures (Argb1555(c) >> 10) & 0x1F == (c.r >> 3) as bv16
  {
  }

  lemma Argb1555Green(c: Rgba)
    ensures (Argb1555(c) >> 5) & 0x1F == (c.g >> 3) as bv16
  {
  }

  lemma Argb1555Blue(c: Rgba)
    ensures Argb1555(c) & 0x1F == (c.b >> 3) as bv16
  {
  }

  lemma Argb1555Alpha(c: Rgba)
    ensures Argb1555(c) & 0x8000 != 0 <==> c.visible
  {
  }

  /** The sprite pixel PNGDrawSprite writes for pixel x. */
  function SpritePixel(row: PngRow, x: nat): bv16
    requires WellFormed(row) && Drawn(row) && x < row.width
  {
    Argb1555(PixelColour(row, x))
  }

  /** Truecolour PNG sprites are opaque everywhere; with alpha, exactly the
      pixels of alpha 0 are transparent. */
  lemma SpritePixelOpacity(row: PngRow, x: nat)
    requires WellFormed(row) && Drawn(row) && x < row.width
    ensures row.pixelType == PNG_PIXEL_TRUECOLOR ==> !IsTransparent16(SpritePixel(row, x))
    ensures row.pixelType == PNG_PIXEL_TRUECOLOR_ALPHA ==>
              (IsTransparent16(SpritePixel(row, x)) <==> row.pixels[4 * x + 3] == 0)
  {
    Argb1555Alpha(PixelColour(row, x));
  }

  /** PNGDrawSprite: row y of a width-pixel image becomes words
      [y * width, (y + 1) * width) of the caller's buffer, pixel x at word
      y * width + x; nothing else in the buffer changes, and a row of a
      colour type it does not handle changes nothing. */
  method DrawSpriteRow(target: array<bv16>, row: PngRow)
    requires WellFormed(row) && (row.y + 1) * row.width <= target.Length
    modifies target
    ensures Drawn(row) ==> forall x :: 0 <= x < row.width ==> target[row.y * row.width + x] == SpritePixel(row, x)
    ensures forall k :: 0 <= k < target.Length && !(Drawn(row) && row.y * row.width <= k < (row.y + 1) * row.width) ==>
              target[k] == old(target[k])
  {
    if !Drawn(row) {
      return;
    }
    var base := row.y * row.width;
    assert (row.y + 1) * row.width == base + row.width;
    WritePixels(target, base, row);
  }

  /** The pixel loop of PNGDrawSprite: `sprite_data` advances from `base`
      one word per pixel. */
  method WritePixels(target: array<bv16>, base: nat, row: PngRow)
    requires WellFormed(row) && Drawn(row) && base + row.width <= target.Length
    modifies target
    ensures forall x :: 0 <= x < row.width ==> target[base + x] == SpritePixel(row, x)
    ensures forall k :: 0 <= k < target.Length && !(base <= k < base + row.width) ==> target[k] == old(target[k])
  {
    var x := 0;
    while x < row.width
      invariant 0 <= x <= row.width
      invariant forall p :: 0 <= p < x ==> target[base + p] == SpritePixel(row, p)
      invariant forall k :: 0 <= k < target.Length && !(base <= k < base + x) ==> target[k] == old(target[k])
    {
      target[base + x] := SpritePixel(row, x);
      x := x + 1;
    }
  }

  /** A buffer of width * height halfwords, as decode_as_sprite allocates
      from the decoder's size, holds every row of the image. */
  lemma SpriteRowsFit(width: nat, height: nat, y: nat)
    requires y < height
    ensures (y + 1) * width <= width * height
  {
    PicoGraphicsDv.MulLe(y + 1, height, width);
  }
}
