/** The constants and inline getters of the PicoVision display driver's
    class declaration: pixel-format codes, the sprite memory layout, the
    frame-buffer address arithmetic of the three pixel formats, and the
    bit tests on the GPU's GPIO register values. */
module DvDisplayHeader {
  import opened Bytes

  const PALETTE_SIZE: nat := 32
  const NUM_PALETTES: nat := 2
  /** The limit of the build without wide modes (the wide build has 32). */
  const MAX_DISPLAYED_SPRITES: int := 80
  const BASE_ADDRESS: nat := 0x10000
  const MAX_NUM_SPRITES: nat := 1024
  const SPRITE_SIZE: nat := 0x900
  /** The PSRAM chips hold 8 MB each. */
  const RAM_SIZE: nat := 0x800000
  const SPRITE_BASE_ADDRESS: nat := RAM_SIZE - MAX_NUM_SPRITES * SPRITE_SIZE

  const I2C_REG_SET_RES: nat := 0xFC
  const I2C_REG_START: nat := 0xFD
  const I2C_REG_STOP: nat := 0xFF
  const I2C_REG_GPIO: nat := 0xC0
  const I2C_REG_LED: nat := 0xC1
  const I2C_REG_GPIO29_MODE: nat := 0xC2
  const I2C_REG_GPIO29_OUT: nat := 0xC3
  const I2C_REG_GPIO_HI: nat := 0xC8
  const I2C_REG_GPIO_HI_OUT: nat := 0xC9
  const I2C_REG_GPIO_HI_OE: nat := 0xCA
  const I2C_REG_GPIO_HI_PULL_UP: nat := 0xCB
  const I2C_REG_GPIO_HI_PULL_DOWN: nat := 0xCC
  const I2C_REG_PALETTE_INDEX: nat := 0xF8
  const I2C_REG_SCROLL_BASE: nat := 0xE0

  /** The frame-buffer pixel formats. */
  datatype Mode = ModePalette | ModeRgb555 | ModeRgb888

  /** The numeric value of each format, as the GPU reads it from the
      scanline and sprite tables. */
  function ModeCode(m: Mode): (c: nat)
    ensures 1 <= c <= 3
  {
    match m
    case ModeRgb555 => 1
    case ModePalette => 2
    case ModeRgb888 => 3
  }

  function ModeFromCode(c: nat): (m: Mode)
    requires 1 <= c <= 3
    ensures ModeCode(m) == c
  {
    if c == 1 then ModeRgb555 else if c == 2 then ModePalette else ModeRgb888
  }

  lemma ModeCodeInjective(m1: Mode, m2: Mode)
    ensures ModeCode(m1) == ModeCode(m2) <==> m1 == m2
  {
  }

  /** The display resolutions of the build without wide modes. */
  datatype Resolution = Res640x480 | Res720x480 | Res720x400 | Res720x576

  function ResolutionCode(r: Resolution): (c: nat)
    ensures c < 4
  {
    match r
    case Res640x480 => 0
    case Res720x480 => 1
    case Res720x400 => 2
    case Res720x576 => 3
  }

  /** How a sprite combines with the frame: BLEND_NONE (0) to BLEND_BLEND2 (4). */
  datatype SpriteBlendMode = BlendNone | BlendDepth | BlendDepth2 | BlendBlend | BlendBlend2

  function BlendCode(b: SpriteBlendMode): (c: nat)
    ensures c <= 4
  {
    match b
    case BlendNone => 0
    case BlendDepth => 1
    case BlendDepth2 => 2
    case BlendBlend => 3
    case BlendBlend2 => 4
  }

  /** Bytes between the starts of two frame rows: three per pixel in every
      mode, so that a frame can be switched between formats in place. */
  function FrameRowStride(frameWidth: nat): (s: nat)
    ensures s >= frameWidth && s % 3 == 0
  {
    frameWidth * 3
  }

  /** Address of an RGB555 pixel: two bytes per pixel along the row. */
  function PointToAddress16(frameWidth: nat, x: int, y: int): (a: nat)
    ensures a < U32
    ensures 0 <= BASE_ADDRESS + y * FrameRowStride(frameWidth) + 2 * x < U32 ==>
              a == BASE_ADDRESS + y * FrameRowStride(frameWidth) + 2 * x
  {
    RowTimesThree(y, frameWidth);
    Wrap32(BASE_ADDRESS + y * frameWidth * 3 + x * 2)
  }

  /** Address of a palette-mode pixel: one byte per pixel along the row. */
  function PointToAddressPalette(frameWidth: nat, x: int, y: int): (a: nat)
    ensures a < U32
    ensures 0 <= BASE_ADDRESS + y * FrameRowStride(frameWidth) + x < U32 ==>
              a == BASE_ADDRESS + y * FrameRowStride(frameWidth) + x
  {
    RowTimesThree(y, frameWidth);
    Wrap32(BASE_ADDRESS + y * frameWidth * 3 + x)
  }

  /** Address of an RGB888 pixel: three bytes per pixel along the row. */
  function PointToAddress24(frameWidth: nat, x: int, y: int): (a: nat)
    ensures a < U32
    ensures 0 <= BASE_ADDRESS + y * FrameRowStride(frameWidth) + 3 * x < U32 ==>
              a == BASE_ADDRESS + y * FrameRowStride(frameWidth) + 3 * x
  {
    RowTimesThree(y, frameWidth);
    Wrap32(BASE_ADDRESS + (y * frameWidth + x) * 3)
  }

  lemma RowTimesThree(y: int, frameWidth: nat)
    ensures y * frameWidth * 3 == y * FrameRowStride(frameWidth)
  {
  }

  /** Bytes per pixel of each format. */
  function PixelSize(m: Mode): (n: nat)
    ensures 1 <= n <= 3
    ensures m == ModeRgb555 ==> n == 2
    ensures m == ModePalette ==> n == 1
    ensures m == ModeRgb888 ==> n == 3
  {
    match m
    case ModeRgb555 => 2
    case ModePalette => 1
    case ModeRgb888 => 3
  }

  /** The address of a pixel in the current format. */
  function PointToAddress(m: Mode, frameWidth: nat, x: int, y: int): (a: nat)
    ensures a < U32
    ensures 0 <= BASE_ADDRESS + y * FrameRowStride(frameWidth) + PixelSize(m) * x < U32 ==>
              a == BASE_ADDRESS + y * FrameRowStride(frameWidth) + PixelSize(m) * x
  {
    match m
    case ModeRgb555 => PointToAddress16(frameWidth, x, y)
    case ModePalette => PointToAddressPalette(frameWidth, x, y)
    case ModeRgb888 => PointToAddress24(frameWidth, x, y)
  }

  /** The pixel size of a format is the distance between the addresses of
      two neighbouring pixels as that format's own address function
      computes them (while the frame fits below 4 GB). */
  lemma PixelSizeIsAddressStep(m: Mode, frameWidth: nat, x: nat, y: nat)
    requires BASE_ADDRESS + y * FrameRowStride(frameWidth) + 3 * (x + 1) < U32
    ensures m == ModeRgb555 ==>
              PointToAddress16(frameWidth, x + 1, y) == PointToAddress16(frameWidth, x, y) + PixelSize(m)
    ensures m == ModePalette ==>
              PointToAddressPalette(frameWidth, x + 1, y) == PointToAddressPalette(frameWidth, x, y) + PixelSize(m)
    ensures m == ModeRgb888 ==>
              PointToAddress24(frameWidth, x + 1, y) == PointToAddress24(frameWidth, x, y) + PixelSize(m)
  {
    assert 0 <= y * FrameRowStride(frameWidth);
  }

  /** Within a row the bytes of pixel x of any format lie at or after the
      row's start and strictly before the next row's start, so rows never
      overlap (when the frame fits below 4 GB). */
  lemma PixelWithinRow(m: Mode, frameWidth: nat, x: nat, y: nat)
    requires x < frameWidth
    requires BASE_ADDRESS + (y + 1) * FrameRowStride(frameWidth) < U32
    ensures PointToAddress(m, frameWidth, 0, y) <= PointToAddress(m, frameWidth, x, y)
    ensures PointToAddress(m, frameWidth, x, y) + PixelSize(m) <= PointToAddress(m, frameWidth, 0, y + 1)
  {
    var s := FrameRowStride(frameWidth);
    var row := BASE_ADDRESS + y * s;
    assert (y + 1) * s == y * s + s;
    assert 0 <= y * s;
    var k := PixelSize(m);
    assert k * x + k <= s by {
      assert k * x <= 3 * x;
      assert 3 * x + 3 <= s;
    }
    assert PointToAddress(m, frameWidth, 0, y) == row;
    assert PointToAddress(m, frameWidth, x, y) == row + k * x;
    assert PointToAddress(m, frameWidth, 0, y + 1) == row + s;
  }

  /** Sprite data slot idx starts here; each slot is SPRITE_SIZE bytes. */
  function SpriteSlotAddress(idx: nat): nat
  {
    SPRITE_BASE_ADDRESS + idx * SPRITE_SIZE
  }

  /** The slots of all MAX_NUM_SPRITES sprites fit in the top of RAM, above
      the frame buffers' base, without overlapping. */
  lemma SpriteSlotsFitInRam(idx: nat)
    requires idx < MAX_NUM_SPRITES
    ensures BASE_ADDRESS < SPRITE_BASE_ADDRESS <= SpriteSlotAddress(idx)
    ensures SpriteSlotAddress(idx) + SPRITE_SIZE <= RAM_SIZE
    ensures SpriteSlotAddress(idx) + SPRITE_SIZE == SpriteSlotAddress(idx + 1)
  {
  }

  /** Bit k of a register value. */
  predicate Bit(v: bv8, k: nat)
    requires k < 8
  {
    (v >> k) & 1 == 1
  }

  /** GPIO 29 is bit 6 of the GPU's bitfield of GPIOs 23-29. */
  function GetGpio29(gpio: bv8): (on: bool)
    ensures on <==> Bit(gpio, 29 - 23)
  {
    (gpio & 0x40) == 0x40
  }

  /** The buttons pull their GPIO low, so a clear bit reads as pressed. */
  function IsButtonXPressed(gpio: bv8): (pressed: bool)
    ensures pressed <==> !Bit(gpio, 0)
  {
    (gpio & 0x1) != 0x1
  }

  function IsButtonAPressed(gpio: bv8): (pressed: bool)
    ensures pressed <==> !Bit(gpio, 1)
  {
    (gpio & 0x2) != 0x2
  }

  /** One of the eight "Hi" GPIOs; a pin number of 8 or more names no bit of
      the 8-bit register and reads as low. The int shift of get_gpio_hi is
      undefined from 31 on. */
  function GetGpioHi(gpioHi: bv8, pin: nat): (on: bool)
    requires pin < 31
    ensures on <==> (pin < 8 && Bit(gpioHi, pin))
  {
    ((gpioHi as bv32) & ((1 as bv32) << pin)) != 0
  }

  /** The PWM value that set_gpio_29 writes: full on or off. */
  function Gpio29Value(on: bool): (pwm: bv8)
    ensures on ==> (forall k :: 0 <= k < 8 ==> Bit(pwm, k))
    ensures !on ==> (forall k :: 0 <= k < 8 ==> !Bit(pwm, k))
  {
    if on then 255 else 0
  }
}
