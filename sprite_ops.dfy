/** What each operation of btn_hw_sprites.cpp does to one record, as functions
    on record values, and the properties that relate them. The in-place
    methods of module HwSprites are specified by these functions. */
module SpriteOps {

  import opened ObjAttrs
  import Bits

  /** btn::sprite_shape; its ordinal is the hardware's shape code. */
  datatype SpriteShape = Square | Wide | Tall

  function ShapeCode(shape: SpriteShape): (c: nat)
    ensures c < 3
  {
    match shape
    case Square => 0
    case Wide => 1
    case Tall => 2
  }

  /** btn::sprite_size; its ordinal is the hardware's size code. */
  datatype SpriteSize = Small | Normal | Big | Huge

  function SizeCode(size: SpriteSize): (c: nat)
    ensures c < 4
  {
    match size
    case Small => 0
    case Normal => 1
    case Big => 2
    case Huge => 3
  }

  /** Both sides of a footprint multiplied by `k`. */
  function Scaled(d: Dims, k: int): Dims
  {
    Dims(k * d.width, k * d.height)
  }

  // ----- dimensions -----

  /** `dimensions`: the size-table entry for the record's shape and size,
      doubled on both axes when attr0 bit 9 is set. Every side is even, so
      the halving in set_position is exact, and positive, so C's truncating
      division and Dafny's agree on it. */
  function Dimensions(r: ObjAttr): (d: Dims)
    requires Shape(r) < 3
    ensures 8 <= d.width <= 128 && 8 <= d.height <= 128
    ensures d.width % 2 == 0 && d.height % 2 == 0
    ensures DoubleBit(r) ==> 16 <= d.width && 16 <= d.height
  {
    var base := ObjGetSize(r);
    if DoubleBit(r) then Scaled(base, 2) else base
  }

  /** DoubleBit reads attr0 bit 9, the bit `dimensions` tests with
      ATTR0_AFF_DBL_BIT. */
  lemma DoubleBitIsBit9(r: ObjAttr)
    ensures DoubleBit(r) == Bits.Bit(r.attr0, 9)
  {
    assert Bits.Pow2(9) == 512;
    Bits.BitOfQuotient(r.attr0, 9, 0);
  }

  /** Turning on attr0 bit 9 of a record that does not have it keeps the
      shape and the size, and doubles both sides of the footprint. */
  lemma SettingDoubleBitDoubles(r: ObjAttr)
    requires Shape(r) < 3 && !DoubleBit(r)
    ensures r.attr0 + 512 < 0x1_0000
    ensures var r' := r.(attr0 := r.attr0 + 512);
      && Shape(r') == Shape(r) && Size(r') == Size(r) && DoubleBit(r')
      && Dimensions(r') == Scaled(Dimensions(r), 2)
  {
    var a := r.attr0;
    var q, m := a / 512, a % 512;
    Bits.DivDiv(a, 512, 32);
    assert q / 32 == Shape(r) && q % 2 == 0;
    assert q % 32 % 2 == 0 by {
      Bits.DivModUnique(q, 2, 16 * (q / 32) + q % 32 / 2, q % 32 % 2);
    }
    Bits.DivModUnique(a + 512, 512, q + 1, m);
    Bits.DivModUnique(q + 1, 2, q / 2, 1);
    Bits.DivModUnique(q + 1, 32, q / 32, q % 32 + 1);
    Bits.DivDiv(a + 512, 512, 32);
    var r' := r.(attr0 := a + 512);
    assert Shape(r') == Shape(r) && Size(r') == Size(r);
    assert ObjGetSize(r') == ObjGetSize(r);
  }

  // ----- attr2 setters -----

  /** `set_tile`: attr2 bits 0-9 become tile_id cut to 10 bits. */
  function WithTile(r: ObjAttr, tileId: int): (r': ObjAttr)
    ensures TileId(r') == tileId % 1024
    ensures r'.attr2 / 1024 == r.attr2 / 1024
    ensures r'.attr0 == r.attr0 && r'.attr1 == r.attr1 && r'.fill == r.fill
  {
    r.(attr2 := SetId(r.attr2, tileId))
  }

  /** `set_palette`: attr2 bits 12-15 become palette_id cut to 4 bits. */
  function WithPalette(r: ObjAttr, paletteId: int): (r': ObjAttr)
    ensures PalBank(r') == paletteId % 16
    ensures r'.attr2 % 4096 == r.attr2 % 4096
    ensures r'.attr0 == r.attr0 && r'.attr1 == r.attr1 && r'.fill == r.fill
  {
    r.(attr2 := SetPalbank(r.attr2, paletteId))
  }

  /** `set_bg_priority`: attr2 bits 10-11 become bg_priority cut to 2 bits. */
  function WithBgPriority(r: ObjAttr, bgPriority: int): (r': ObjAttr)
    ensures Priority(r') == bgPriority % 4
    ensures r'.attr2 % 1024 == r.attr2 % 1024 && r'.attr2 / 4096 == r.attr2 / 4096
    ensures r'.attr0 == r.attr0 && r'.attr1 == r.attr1 && r'.fill == r.fill
  {
    r.(attr2 := SetPrio(r.attr2, bgPriority))
  }

  // ----- set_position -----

  /** `set_position`: (x, y) is the centre; the top-left corner, the centre
      minus half the current dimensions, goes into the 9-bit X and 8-bit Y
      fields, so it wraps modulo 512 and 256. */
  function WithPosition(r: ObjAttr, x: int, y: int): (r': ObjAttr)
    requires Shape(r) < 3
    ensures X(r') == (x - Dimensions(r).width / 2) % 512
    ensures Y(r') == (y - Dimensions(r).height / 2) % 256
    ensures r'.attr0 / 256 == r.attr0 / 256 && r'.attr1 / 512 == r.attr1 / 512
    ensures r'.attr2 == r.attr2 && r'.fill == r.fill
    ensures Shape(r') < 3 && Dimensions(r') == Dimensions(r)
  {
    var dims := Dimensions(r);
    ObjSetPos(r, x - dims.width / 2, y - dims.height / 2)
  }

  /** Adding half the dimensions back to the stored corner gives the centre
      that was asked for, modulo the field widths. */
  lemma PositionCentre(r: ObjAttr, x: int, y: int)
    requires Shape(r) < 3
    ensures var r', d := WithPosition(r, x, y), Dimensions(r);
      (X(r') + d.width / 2) % 512 == x % 512 && (Y(r') + d.height / 2) % 256 == y % 256
  {
    var r', d := WithPosition(r, x, y), Dimensions(r);
    assert X(r') == (x - d.width / 2) % 512 && Y(r') == (y - d.height / 2) % 256;
    Bits.AddBackMod(x, d.width / 2, 512);
    Bits.AddBackMod(y, d.height / 2, 256);
  }

  /** A 16x16 sprite with the double bit set measures 32x32; centred at
      (100, 80) its corner is (84, 64). */
  lemma PositionExample(r: ObjAttr)
    requires Shape(r) == 0 && Size(r) == 1 && DoubleBit(r)
    ensures Dimensions(r) == Dims(32, 32)
    ensures X(WithPosition(r, 100, 80)) == 84 && Y(WithPosition(r, 100, 80)) == 64
  {
  }

  // ----- hide -----

  /** `hide` sets the object mode to "hidden", which turns on attr0 bit 9,
      the bit `dimensions` reads as double size. Every other field keeps its
      value, but the footprint becomes twice the table entry. */
  lemma HideKeepsFields(r: ObjAttr)
    requires Shape(r) < 3
    ensures var h := ObjHide(r);
      && Shape(h) == Shape(r) && Size(h) == Size(r) && X(h) == X(r) && Y(h) == Y(r)
      && TileId(h) == TileId(r) && PalBank(h) == PalBank(r) && Priority(h) == Priority(r)
      && GfxMode(h) == GfxMode(r) && Mosaic(h) == Mosaic(r) && EightBpp(h) == EightBpp(r)
      && DoubleBit(h) && Dimensions(h) == Scaled(ObjGetSize(r), 2)
  {
    var h := ObjHide(r);
    SameAttr0From10(r, h);
    ModeHighBitIsDouble(h);
    assert DoubleBit(h);
    assert Shape(h) == Shape(r) && Size(h) == Size(r);
    assert ObjGetSize(h) == ObjGetSize(r);
  }

  /** For a sprite that was not already doubled, positioning after `hide`
      uses twice the footprint, so the stored corner moves by half the table
      width and height compared with positioning before `hide`. */
  lemma HideShiftsPosition(r: ObjAttr, x: int, y: int)
    requires Shape(r) < 3 && !DoubleBit(r)
    ensures var base := ObjGetSize(r);
      && Dimensions(ObjHide(r)) == Scaled(Dimensions(r), 2)
      && X(WithPosition(ObjHide(r), x, y)) == (x - base.width) % 512
      && X(WithPosition(r, x, y)) == (x - base.width / 2) % 512
      && Y(WithPosition(ObjHide(r), x, y)) == (y - base.height) % 256
      && Y(WithPosition(r, x, y)) == (y - base.height / 2) % 256
  {
    HideKeepsFields(r);
  }

  // ----- setup -----

  /** The record `setup` builds before positioning it: ATTR0_BUILD with the
      shape, colour depth `bpp` and every other attr0 field zero,
      ATTR1_BUILDR with the size and no flips, ATTR2_BUILD with tile,
      palette and priority. */
  function SetupBase(shape: SpriteShape, size: SpriteSize, tileId: int, paletteId: int,
                     bpp: int, bgPriority: int, fill: Word): (b: ObjAttr)
    ensures Shape(b) == ShapeCode(shape) && Size(b) == SizeCode(size)
    ensures TileId(b) == tileId % 1024 && PalBank(b) == paletteId % 16 && Priority(b) == bgPriority % 4
    ensures EightBpp(b) == (bpp / 8 % 2 == 1)
    ensures ObjMode(b) == 0 && !DoubleBit(b) && GfxMode(b) == 0 && !Mosaic(b) && Attr1Mid(b) == 0
    ensures b.fill == fill
  {
    var a0 := Attr0Build(0, ShapeCode(shape), bpp, 0, 0, 0, 0);
    var a1 := Attr1BuildR(0, SizeCode(size), 0, 0);
    var a2 := Attr2Build(tileId, paletteId, bgPriority);
    var b := ObjAttr(a0, a1, a2, fill);
    ModeHighBitIsDouble(b);
    assert ObjMode(b) == 0 && !DoubleBit(b);
    assert Shape(b) == ShapeCode(shape) && Size(b) == SizeCode(size);
    b
  }

  /** `setup` as the source writes it: the bool eight_bits_per_pixel is
      passed where ATTR0_BUILD expects a bit count, and `true` (1) has no
      bit 3, so the colour-depth bit stays clear whatever the flag says. */
  function SetupRecordAsWritten(shape: SpriteShape, size: SpriteSize, tileId: int, paletteId: int,
                                eightBitsPerPixel: bool, x: int, y: int, bgPriority: int, fill: Word): (r: ObjAttr)
    ensures !EightBpp(r)
    ensures r == SetupRecord(shape, size, tileId, paletteId, false, x, y, bgPriority, fill)
  {
    var b := SetupBase(shape, size, tileId, paletteId, if eightBitsPerPixel then 1 else 0, bgPriority, fill);
    assert b == SetupBase(shape, size, tileId, paletteId, 4, bgPriority, fill);
    var r := WithPosition(b, x, y);
    SameAttr0From8(b, r);
    r
  }

  /** `setup` with the colour depth passed as the bit count ATTR0_BUILD
      expects (8 or 4): a fresh record of the given shape and size, tile,
      palette, priority and colour depth, shown as a regular object with no
      mosaic, blending or flips, centred at (x, y). `fill` is not written. */
  function SetupRecord(shape: SpriteShape, size: SpriteSize, tileId: int, paletteId: int,
                       eightBitsPerPixel: bool, x: int, y: int, bgPriority: int, fill: Word): (r: ObjAttr)
    ensures Shape(r) == ShapeCode(shape) && Size(r) == SizeCode(size)
    ensures TileId(r) == tileId % 1024 && PalBank(r) == paletteId % 16 && Priority(r) == bgPriority % 4
    ensures EightBpp(r) == eightBitsPerPixel
    ensures ObjMode(r) == 0 && GfxMode(r) == 0 && !Mosaic(r) && Attr1Mid(r) == 0
    ensures Dimensions(r) == OamSizes[ShapeCode(shape)][SizeCode(size)]
    ensures X(r) == (x - Dimensions(r).width / 2) % 512 && Y(r) == (y - Dimensions(r).height / 2) % 256
    ensures r.fill == fill
  {
    var b := SetupBase(shape, size, tileId, paletteId, if eightBitsPerPixel then 8 else 4, bgPriority, fill);
    var r := WithPosition(b, x, y);
    SameAttr0From8(b, r);
    SameAttr1From9(b, r);
    r
  }

  /** The as-written `setup` differs from the intended one exactly when the
      caller asks for 8 bits per pixel. */
  lemma SetupColourDepthDiscrepancy(shape: SpriteShape, size: SpriteSize, tileId: int, paletteId: int,
                                    x: int, y: int, bgPriority: int, fill: Word)
    ensures SetupRecordAsWritten(shape, size, tileId, paletteId, true, x, y, bgPriority, fill)
         != SetupRecord(shape, size, tileId, paletteId, true, x, y, bgPriority, fill)
    ensures SetupRecordAsWritten(shape, size, tileId, paletteId, false, x, y, bgPriority, fill)
         == SetupRecord(shape, size, tileId, paletteId, false, x, y, bgPriority, fill)
  {
  }

  // ----- Bit-level statements of field isolation -----

  /** After `set_tile`, attr2 bits 0-9 are bits 0-9 of tile_id (two's
      complement) and bits 10-15 are as before; the other words are equal. */
  lemma WithTileBits(r: ObjAttr, tileId: int, i: nat)
    requires i < 16
    ensures var r' := WithTile(r, tileId);
      && (i < 10 ==> Bits.Bit(r'.attr2, i) == Bits.Bit(tileId, i))
      && (10 <= i ==> Bits.Bit(r'.attr2, i) == Bits.Bit(r.attr2, i))
  {
    var r' := WithTile(r, tileId);
    assert Bits.Pow2(0) == 1 && Bits.Pow2(10) == 1024;
    Bits.FieldBits(r.attr2, r'.attr2, tileId, 0, 10, i);
  }

  /** After `set_palette`, attr2 bits 12-15 are bits 0-3 of palette_id and
      bits 0-11 are as before. */
  lemma WithPaletteBits(r: ObjAttr, paletteId: int, i: nat)
    requires i < 16
    ensures var r' := WithPalette(r, paletteId);
      && (12 <= i ==> Bits.Bit(r'.attr2, i) == Bits.Bit(paletteId, i - 12))
      && (i < 12 ==> Bits.Bit(r'.attr2, i) == Bits.Bit(r.attr2, i))
  {
    var r' := WithPalette(r, paletteId);
    assert Bits.Pow2(4) == 16 && Bits.Pow2(12) == 4096 && Bits.Pow2(16) == 0x1_0000;
    Bits.FieldBits(r.attr2, r'.attr2, paletteId, 12, 4, i);
  }

  /** After `set_bg_priority`, attr2 bits 10-11 are bits 0-1 of bg_priority
      and the other bits of attr2 are as before. */
  lemma WithBgPriorityBits(r: ObjAttr, bgPriority: int, i: nat)
    requires i < 16
    ensures var r' := WithBgPriority(r, bgPriority);
      && (10 <= i < 12 ==> Bits.Bit(r'.attr2, i) == Bits.Bit(bgPriority, i - 10))
      && (i < 10 || 12 <= i ==> Bits.Bit(r'.attr2, i) == Bits.Bit(r.attr2, i))
  {
    var r' := WithBgPriority(r, bgPriority);
    assert Bits.Pow2(2) == 4 && Bits.Pow2(10) == 1024 && Bits.Pow2(12) == 4096;
    Bits.FieldBits(r.attr2, r'.attr2, bgPriority, 10, 2, i);
  }

  /** After `hide`, attr0 bit 9 is set, bit 8 is clear, and every other bit
      of attr0 is as before. */
  lemma HideBits(r: ObjAttr, i: nat)
    requires i < 16
    ensures var h := ObjHide(r);
      && (i == 8 ==> !Bits.Bit(h.attr0, i))
      && (i == 9 ==> Bits.Bit(h.attr0, i))
      && (i != 8 && i != 9 ==> Bits.Bit(h.attr0, i) == Bits.Bit(r.attr0, i))
  {
    var h := ObjHide(r);
    assert Bits.Pow2(2) == 4 && Bits.Pow2(8) == 256 && Bits.Pow2(10) == 1024;
    Bits.FieldBits(r.attr0, h.attr0, 2, 8, 2, i);
    assert Bits.Bit(2, 0) == false && Bits.Bit(2, 1) == true;
  }

  /** After `set_position`, attr1 bits 0-8 and attr0 bits 0-7 are the low
      bits of the corner coordinates, and every other bit of attr0 and attr1
      is as before. */
  lemma WithPositionBits(r: ObjAttr, x: int, y: int, i: nat)
    requires Shape(r) < 3 && i < 16
    ensures var r', d := WithPosition(r, x, y), Dimensions(r);
      && (i < 9 ==> Bits.Bit(r'.attr1, i) == Bits.Bit(x - d.width / 2, i))
      && (9 <= i ==> Bits.Bit(r'.attr1, i) == Bits.Bit(r.attr1, i))
      && (i < 8 ==> Bits.Bit(r'.attr0, i) == Bits.Bit(y - d.height / 2, i))
      && (8 <= i ==> Bits.Bit(r'.attr0, i) == Bits.Bit(r.attr0, i))
  {
    var r', d := WithPosition(r, x, y), Dimensions(r);
    assert Bits.Pow2(0) == 1 && Bits.Pow2(8) == 256 && Bits.Pow2(9) == 512;
    Bits.FieldBits(r.attr1, r'.attr1, x - d.width / 2, 0, 9, i);
    Bits.FieldBits(r.attr0, r'.attr0, y - d.height / 2, 0, 8, i);
  }
}
