/** The palette pen of PicoGraphics for the PicoVision (PenDV_P5): a
    5-bit colour index plus a depth bit per pixel, two 32-entry palettes
    held by the display driver, and a record of which entries are in use
    in each palette. */
module PenP5 {
  import opened Bytes
  import opened DvDisplayHeader

  /** RGB_to_RGB888: R in bits 16-23, G in bits 8-15, B in bits 0-7. */
  function Rgb888(r: bv8, g: bv8, b: bv8): bv32
  {
    ((r as bv32) << 16) | ((g as bv32) << 8) | (b as bv32)
  }

  /** The three channels come back out of the packed colour, and the top
      byte is clear. */
  lemma Rgb888Channels(r: bv8, g: bv8, b: bv8)
    ensures var c := Rgb888(r, g, b);
            (c >> 16) & 0xFF == r as bv32 && (c >> 8) & 0xFF == g as bv32 && c & 0xFF == b as bv32 && c >> 24 == 0
  {
  }

  /** The grey whose three channels are all v. */
  function Grey(v: bv8): bv32
  {
    Rgb888(v, v, v)
  }

  /** The entry the constructor stores for level n: RGB_to_RGB888(n, n, n) << 3,
      of which the display keeps the low 24 bits. */
  function RampEntry(n: bv8): bv32
  {
    (Rgb888(n, n, n) << 3) & 0xFF_FFFF
  }

  /** Levels below 32 give the grey 8 * n: the shift moves each channel up
      without spilling into its neighbour. */
  lemma RampEntryIsGrey(n: bv8)
    requires n < 32
    ensures RampEntry(n) == Grey(n * 8)
  {
  }

  /** Level 32, which palette 1 stores in entry 0, does not fit a channel:
      the carries land in the next channel up and entry 0 holds R = 1,
      G = 1, B = 0 rather than a grey. */
  lemma RampEntryOfLevel32()
    ensures RampEntry(32) == Rgb888(1, 1, 0)
  {
  }

  /** The palette byte set_pixel writes: the colour index in bits 6-2 and
      the depth bit in bit 0. */
  function PixelByte(color: bv8, depth: bv8): (b: bv8)
    requires color < 32 && depth < 2
    ensures (b >> 2) & 0x1F == color && b & 1 == depth && b & 2 == 0 && b >> 7 == 0
  {
    (color << 2) | depth
  }

  /** The key of the dither cache for colour (r, g, b): the top three bits
      of each channel, R highest. */
  function CacheKey(r: bv8, g: bv8, b: bv8): (k: bv32)
    ensures k < 512
    ensures k >> 6 == (r >> 5) as bv32 && (k >> 3) & 7 == (g >> 5) as bv32 && k & 7 == (b >> 5) as bv32
  {
    (((r as bv32) & 0xE0) << 1) | (((g as bv32) & 0xE0) >> 2) | (((b as bv32) & 0xE0) >> 5)
  }

  /** The position in the 4x4 dither pattern of pixel (x, y): x & 3 and
      y & 3 of the two's-complement coordinates are their Euclidean
      remainders by 4. */
  function PatternIndex(x: int, y: int): (k: nat)
    ensures k < 16 && k % 4 == x % 4 && k / 4 == y % 4
  {
    x % 4 + (y % 4) * 4
  }

  /** The calls the pen makes on its IPaletteDisplayDriver. */
  datatype DriverCall =
    | SetPaletteColour(entry: nat, colour: bv32, palette: nat)
    | SetLocalPaletteColour(entry: nat, colour: bv32)
    | WritePalettePixel(x: int, y: int, value: bv8)
    | WritePalettePixelSpan(x: int, y: int, len: nat, value: bv8)

  /** The constructor's call for entry i of palette p: level i in
      palette 0, level 32 - i in palette 1, shifted up by 3. */
  function RampCall(i: nat, p: nat): DriverCall
    requires i < PALETTE_SIZE && p < NUM_PALETTES
  {
    var n := if p == 0 then i else PALETTE_SIZE - i;
    SetPaletteColour(i, Rgb888(n as bv8, n as bv8, n as bv8) << 3, p)
  }

  /** The constructor's calls for entries 0..n-1, palette 0 first. */
  function RampCalls(n: nat): (cs: seq<DriverCall>)
    requires n <= PALETTE_SIZE
    ensures |cs| == 2 * n
  {
    if n == 0 then [] else RampCalls(n - 1) + [RampCall(n - 1, 0), RampCall(n - 1, 1)]
  }

  /** Call 2i sets entry i of palette 0 and call 2i + 1 entry i of
      palette 1. */
  lemma {:induction false} RampCallAt(n: nat, i: nat)
    requires i < n <= PALETTE_SIZE
    ensures RampCalls(n)[2 * i] == RampCall(i, 0) && RampCalls(n)[2 * i + 1] == RampCall(i, 1)
  {
    if i < n - 1 {
      RampCallAt(n - 1, i);
      assert RampCalls(n)[..2 * (n - 1)] == RampCalls(n - 1);
    }
  }

  /** What the display keeps of each ramp call: entry i of palette 0 is
      the grey 8i; entry i > 0 of palette 1 is the grey 8(32 - i), and
      entry 0 of palette 1 is R = 1, G = 1, B = 0. */
  lemma RampColours(i: nat)
    requires i < PALETTE_SIZE
    ensures RampCall(i, 0).entry == i && RampCall(i, 0).palette == 0
    ensures RampCall(i, 1).entry == i && RampCall(i, 1).palette == 1
    ensures RampCall(i, 0).colour & 0xFF_FFFF == Grey(i as bv8 * 8)
    ensures i > 0 ==> RampCall(i, 1).colour & 0xFF_FFFF == Grey((PALETTE_SIZE - i) as bv8 * 8)
    ensures i == 0 ==> RampCall(i, 1).colour & 0xFF_FFFF == Rgb888(1, 1, 0)
  {
    RampEntryIsGrey(i as bv8);
    if i > 0 {
      RampEntryIsGrey((PALETTE_SIZE - i) as bv8);
    } else {
      RampEntryOfLevel32();
    }
  }

  class PenP5 {
    /** used[palette][i]: whether entry i of that palette is taken. */
    const used: array2<bool>
    var color: bv8
    var depth: bv8
    var cacheBuilt: bool
    /** The driver calls made so far, oldest first. */
    var calls: seq<DriverCall>

    ghost predicate Valid()
      reads this
    {
      used.Length0 == NUM_PALETTES && used.Length1 == PALETTE_SIZE && color < 32 && depth < 2
    }

    /** The constructor: palette 0 is set to the ramp of levels 0..31 and
        palette 1 to the ramp of levels 32..1, every entry of both is free,
        and the dither cache must be rebuilt. */
    constructor ()
      ensures Valid() && fresh(used) && !cacheBuilt && calls == RampCalls(PALETTE_SIZE)
      ensures forall i :: 0 <= i < PALETTE_SIZE ==> !used[0, i] && !used[1, i]
    {
      used := new bool[NUM_PALETTES, PALETTE_SIZE];
      color := 0;
      depth := 0;
      calls := [];
      new;
      var i: nat := 0;
      while i < PALETTE_SIZE
        invariant 0 <= i <= PALETTE_SIZE
        invariant Valid() && calls == RampCalls(i)
        invariant forall j :: 0 <= j < i ==> !used[0, j] && !used[1, j]
      {
        calls := calls + [RampCall(i, 0)];
        calls := calls + [RampCall(i, 1)];
        FreeEntry(i);
        i := i + 1;
      }
      cacheBuilt := false;
    }

    /** The constructor's used[0][i] = false and used[1][i] = false. */
    method FreeEntry(i: nat)
      requires Valid() && i < PALETTE_SIZE
      modifies used
      ensures forall j :: 0 <= j < PALETTE_SIZE ==> used[0, j] == (old(used[0, j]) && j != i)
      ensures forall j :: 0 <= j < PALETTE_SIZE ==> used[1, j] == (old(used[1, j]) && j != i)
    {
      used[0, i] := false;
      used[1, i] := false;
    }

    /** set_pen(uint): the low five bits of c. */
    method SetPen(c: bv32)
      requires Valid()
      modifies this`color
      ensures Valid() && color as bv32 == c & 0x1F
    {
      color := (c & 0x1F) as bv8;
    }

    /** set_depth: any non-zero depth is 1. */
    method SetDepth(newDepth: bv8)
      requires Valid()
      modifies this`depth
      ensures Valid() && (depth == 1 <==> newDepth > 0) && (depth == 0 <==> newDepth == 0)
    {
      depth := if newDepth > 0 then 1 else 0;
    }

    /** set_pen(r, g, b): `closest` is the entry of the current palette
        nearest to (r, g, b) as RGB::closest finds it, or -1. */
    method SetPenRgb(closest: int)
      requires Valid() && -1 <= closest < PALETTE_SIZE
      modifies this`color
      ensures Valid()
      ensures closest != -1 ==> color as int == closest
      ensures closest == -1 ==> color == old(color)
    {
      if closest != -1 {
        color := closest as bv8;
      }
    }

    /** update_pen: entry i & 0x1f of the current palette `cp` becomes
        (r, g, b) and is marked used; that index is returned. */
    method UpdatePen(cp: nat, i: bv8, r: bv8, g: bv8, b: bv8) returns (pen: int)
      requires Valid() && cp < NUM_PALETTES
      modifies this`cacheBuilt, this`calls, used
      ensures Valid() && !cacheBuilt
      ensures pen == (i & 0x1F) as int
      ensures calls == old(calls) + [SetLocalPaletteColour(pen, Rgb888(r, g, b))]
      ensures forall p, j :: 0 <= p < NUM_PALETTES && 0 <= j < PALETTE_SIZE ==>
                used[p, j] == if p == cp && j == pen then true else old(used[p, j])
    {
      var k := (i & 0x1F) as nat;
      used[cp, k] := true;
      cacheBuilt := false;
      calls := calls + [SetLocalPaletteColour(k, Rgb888(r, g, b))];
      return k;
    }

    /** create_pen: the lowest free entry of the current palette `cp`
        becomes (r, g, b) and is marked used; -1, and no change, when all
        32 are taken. */
    method CreatePen(cp: nat, r: bv8, g: bv8, b: bv8) returns (pen: int)
      requires Valid() && cp < NUM_PALETTES
      modifies this`cacheBuilt, this`calls, used
      ensures Valid()
      ensures pen == -1 <==> forall j :: 0 <= j < PALETTE_SIZE ==> old(used[cp, j])
      ensures pen == -1 ==>
                cacheBuilt == old(cacheBuilt) && calls == old(calls) &&
                forall p, j :: 0 <= p < NUM_PALETTES && 0 <= j < PALETTE_SIZE ==> used[p, j] == old(used[p, j])
      ensures pen != -1 ==>
                0 <= pen < PALETTE_SIZE && !old(used[cp, pen]) &&
                (forall j :: 0 <= j < pen ==> old(used[cp, j])) &&
                !cacheBuilt && calls == old(calls) + [SetLocalPaletteColour(pen, Rgb888(r, g, b))] &&
                forall p, j :: 0 <= p < NUM_PALETTES && 0 <= j < PALETTE_SIZE ==>
                  used[p, j] == if p == cp && j == pen then true else old(used[p, j])
    {
      var i: nat := 0;
      while i < PALETTE_SIZE
        invariant 0 <= i <= PALETTE_SIZE
        invariant forall j :: 0 <= j < i ==> used[cp, j]
      {
        if !used[cp, i] {
          used[cp, i] := true;
          cacheBuilt := false;
          calls := calls + [SetLocalPaletteColour(i, Rgb888(r, g, b))];
          return i;
        }
        i := i + 1;
      }
      return -1;
    }

    /** reset_pen: entry i of the current palette `cp` becomes black and
        free. reset_pen does not mask i; it must name an entry. */
    method ResetPen(cp: nat, i: bv8) returns (pen: int)
      requires Valid() && cp < NUM_PALETTES && i < 32
      modifies this`cacheBuilt, this`calls, used
      ensures Valid() && !cacheBuilt && pen == i as int
      ensures calls == old(calls) + [SetLocalPaletteColour(pen, 0)]
      ensures forall p, j :: 0 <= p < NUM_PALETTES && 0 <= j < PALETTE_SIZE ==>
                used[p, j] == if p == cp && j == pen then false else old(used[p, j])
    {
      var k := i as nat;
      calls := calls + [SetLocalPaletteColour(k, 0)];
      used[cp, k] := false;
      cacheBuilt := false;
      return k;
    }

    /** set_pixel: one palette pixel of the current colour and depth. */
    method SetPixel(px: int, py: int)
      requires Valid()
      modifies this`calls
      ensures Valid()
      ensures calls == old(calls) + [WritePalettePixel(px, py, PixelByte(color, depth))]
    {
      calls := calls + [WritePalettePixel(px, py, PixelByte(color, depth))];
    }

    /** set_pixel_span: l pixels of the current colour and depth. */
    method SetPixelSpan(px: int, py: int, l: nat)
      requires Valid()
      modifies this`calls
      ensures Valid()
      ensures calls == old(calls) + [WritePalettePixelSpan(px, py, l, PixelByte(color, depth))]
    {
      calls := calls + [WritePalettePixelSpan(px, py, l, PixelByte(color, depth))];
    }
  }
}
