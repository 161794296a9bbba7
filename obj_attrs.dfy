/** The Game Boy Advance object attribute record (tonc's OBJ_ATTR), the
    bit-field macros that tonc provides over it, and the OAM size table.

    A record is four 16-bit words in memory order. `btn::hw::sprites::handle`
    has the same size and alignment as this record (two compile-time checks in
    btn_hw_sprites.cpp), which is what lets every operation view a handle as
    an OBJ_ATTR.

    A word is the number it holds, 0 .. 65535. A field of `span` values whose
    lowest bit has value `unit` (both powers of two) is `w / unit % span`:
    tonc's `(w & MASK) >> SHIFT`. Masking a C `int` to k bits is `% 2^k`:
    Dafny's `%` never returns a negative number, which gives the same bits as
    two's complement. Or-ing fields that do not overlap is their sum. */
module ObjAttrs {

  import Bits

  type Word = w: int | 0 <= w < 0x1_0000

  /** attr0, attr1, attr2 and the filler word the hardware uses for the
      interleaved affine matrices. */
  datatype ObjAttr = ObjAttr(attr0: Word, attr1: Word, attr2: Word, fill: Word)

  // ----- Field views -----
  // attr0: bits 0-7 Y, 8-9 object mode, 10-11 graphics mode, 12 mosaic,
  //        13 colour depth, 14-15 shape.
  // attr1: bits 0-8 X, 9-13 affine index (or the flips, bits 12-13), 14-15 size.
  // attr2: bits 0-9 tile id, 10-11 priority, 12-15 palette bank.

  function Y(r: ObjAttr): (y: nat)
    ensures y < 256
  {
    r.attr0 % 256
  }

  /** attr0 bits 8-9: 0 regular, 1 affine, 2 hidden, 3 affine double-size. */
  function ObjMode(r: ObjAttr): (m: nat)
    ensures m < 4
  {
    r.attr0 / 256 % 4
  }

  /** attr0 bit 9 (tonc's ATTR0_AFF_DBL_BIT, the same bit as ATTR0_HIDE). */
  predicate DoubleBit(r: ObjAttr)
  {
    r.attr0 / 512 % 2 == 1
  }

  function GfxMode(r: ObjAttr): (g: nat)
    ensures g < 4
  {
    r.attr0 / 1024 % 4
  }

  predicate Mosaic(r: ObjAttr)
  {
    r.attr0 / 4096 % 2 == 1
  }

  /** attr0 bit 13: 256-colour (8 bits per pixel) tiles. */
  predicate EightBpp(r: ObjAttr)
  {
    r.attr0 / 8192 % 2 == 1
  }

  function Shape(r: ObjAttr): (s: nat)
    ensures s < 4
  {
    r.attr0 / 16384
  }

  function X(r: ObjAttr): (x: nat)
    ensures x < 512
  {
    r.attr1 % 512
  }

  /** attr1 bits 9-13: the affine matrix index, or (bits 12-13) the flips. */
  function Attr1Mid(r: ObjAttr): (v: nat)
    ensures v < 32
  {
    r.attr1 / 512 % 32
  }

  function Size(r: ObjAttr): (s: nat)
    ensures s < 4
  {
    r.attr1 / 16384
  }

  function TileId(r: ObjAttr): (id: nat)
    ensures id < 1024
  {
    r.attr2 % 1024
  }

  function Priority(r: ObjAttr): (p: nat)
    ensures p < 4
  {
    r.attr2 / 1024 % 4
  }

  function PalBank(r: ObjAttr): (b: nat)
    ensures b < 16
  {
    r.attr2 / 4096
  }

  /** Records whose attr0 agrees from bit 8 up have the same object mode,
      double bit, graphics mode, mosaic, colour depth and shape. */
  lemma SameAttr0From8(r: ObjAttr, r': ObjAttr)
    requires r.attr0 / 256 == r'.attr0 / 256
    ensures ObjMode(r) == ObjMode(r') && DoubleBit(r) == DoubleBit(r')
    ensures GfxMode(r) == GfxMode(r') && Mosaic(r) == Mosaic(r')
    ensures EightBpp(r) == EightBpp(r') && Shape(r) == Shape(r')
  {
    SameAttr0From10(r, r');
    Bits.DivDiv(r.attr0, 256, 2);
    Bits.DivDiv(r'.attr0, 256, 2);
    Bits.DivDiv(r.attr0, 256, 4);
    Bits.DivDiv(r'.attr0, 256, 4);
  }

  /** The double bit is the high bit of the object mode: modes 2 (hidden)
      and 3 (affine, double size) have it, modes 0 and 1 do not. */
  lemma ModeHighBitIsDouble(r: ObjAttr)
    ensures DoubleBit(r) == (ObjMode(r) >= 2)
  {
    var t := r.attr0 / 256;
    var c := t % 4;
    Bits.DivDiv(r.attr0, 256, 2);
    Bits.DivModUnique(t, 2, 2 * (t / 4) + c / 2, c % 2);
    Bits.DivModUnique(t / 2, 2, t / 4, c / 2);
  }

  /** Records whose attr0 agrees from bit 10 up have the same graphics mode,
      mosaic, colour depth and shape. */
  lemma SameAttr0From10(r: ObjAttr, r': ObjAttr)
    requires r.attr0 / 1024 == r'.attr0 / 1024
    ensures GfxMode(r) == GfxMode(r') && Mosaic(r) == Mosaic(r')
    ensures EightBpp(r) == EightBpp(r') && Shape(r) == Shape(r')
  {
    Bits.DivDiv(r.attr0, 1024, 4);
    Bits.DivDiv(r'.attr0, 1024, 4);
    Bits.DivDiv(r.attr0, 1024, 8);
    Bits.DivDiv(r'.attr0, 1024, 8);
    Bits.DivDiv(r.attr0, 1024, 16);
    Bits.DivDiv(r'.attr0, 1024, 16);
  }

  /** Records whose attr1 agrees from bit 9 up have the same affine or flip
      bits and the same size. */
  lemma SameAttr1From9(r: ObjAttr, r': ObjAttr)
    requires r.attr1 / 512 == r'.attr1 / 512
    ensures Attr1Mid(r) == Attr1Mid(r') && Size(r) == Size(r')
  {
    Bits.DivDiv(r.attr1, 512, 32);
    Bits.DivDiv(r'.attr1, 512, 32);
  }

  // ----- tonc's building and bit-field macros -----

  /** ATTR0_BUILD(y, shape, bpp, mode, mos, bld, win). `bpp` is meant as a
      bit count (4 or 8): only its bit 3 (value 8) reaches the colour-depth
      bit, through `(bpp & 8) << 10`. */
  function Attr0Build(y: int, shape: int, bpp: int, mode: int, mos: int, bld: int, win: int): (a: Word)
    ensures a % 256 == y % 256
    ensures a / 256 % 4 == mode % 4
    ensures a / 1024 % 4 == 2 * (win % 2) + bld % 2
    ensures a / 4096 % 2 == mos % 2
    ensures a / 8192 % 2 == bpp / 8 % 2
    ensures a / 16384 == shape % 4
  {
    var a := y % 256 + mode % 4 * 256 + bld % 2 * 1024 + win % 2 * 2048
             + mos % 2 * 4096 + bpp / 8 % 2 * 8192 + shape % 4 * 16384;
    // The fields from bit 13, 12, 10 and 8 upwards, each as one number.
    var f13 := bpp / 8 % 2 + 2 * (shape % 4);
    var f12 := mos % 2 + 2 * f13;
    var f10 := bld % 2 + 2 * (win % 2) + 4 * f12;
    var f8 := mode % 4 + 4 * f10;
    Bits.DivModUnique(a, 256, f8, y % 256);
    Bits.DivModUnique(a, 1024, f10, a % 1024);
    Bits.DivModUnique(a, 4096, f12, a % 4096);
    Bits.DivModUnique(a, 8192, f13, a % 8192);
    Bits.DivModUnique(a, 16384, shape % 4, a % 16384);
    Bits.DivModUnique(f8, 4, f10, mode % 4);
    Bits.DivModUnique(f10, 4, f12, bld % 2 + 2 * (win % 2));
    Bits.DivModUnique(f12, 2, f13, mos % 2);
    Bits.DivModUnique(f13, 2, shape % 4, bpp / 8 % 2);
    a
  }

  /** ATTR1_BUILDR(x, size, hflip, vflip), the form for regular objects. */
  function Attr1BuildR(x: int, size: int, hflip: int, vflip: int): (a: Word)
    ensures a % 512 == x % 512
    ensures a / 512 % 32 == 16 * (vflip % 2) + 8 * (hflip % 2)
    ensures a / 16384 == size % 4
  {
    x % 512 + hflip % 2 * 4096 + vflip % 2 * 8192 + size % 4 * 16384
  }

  /** ATTR2_BUILD(id, pbank, prio). */
  function Attr2Build(id: int, pbank: int, prio: int): (a: Word)
    ensures a % 1024 == id % 1024
    ensures a / 1024 % 4 == prio % 4
    ensures a / 4096 == pbank % 16
  {
    id % 1024 + pbank % 16 * 4096 + prio % 4 * 1024
  }

  /** BFN_SET(w, x, NAME) for the field of `span` values at bit value `unit`:
      `w` with that field cleared, plus `x` cut to the field and moved into
      place. */
  function BfnSet(w: Word, x: int, unit: nat, span: nat): int
    requires unit >= 1 && span >= 1
  {
    w - w / unit % span * unit + x % span * unit
  }

  /** What BFN_SET keeps and what it writes: the bits below the field, the
      field itself, and the bits above it. */
  lemma BfnSetFields(w: Word, x: int, unit: nat, span: nat)
    requires unit >= 1 && span >= 1
    ensures var w' := BfnSet(w, x, unit, span);
      && w' % unit == w % unit
      && w' / unit % span == x % span
      && w' / unit / span == w / unit / span
  {
    var q, m := w / unit, w % unit;
    var f := q / span * span + x % span;
    assert BfnSet(w, x, unit, span) == unit * f + m;
    Bits.DivModUnique(BfnSet(w, x, unit, span), unit, f, m);
    Bits.DivModUnique(f, span, q / span, x % span);
  }

  /** BFN_SET(attr0, y, ATTR0_Y). */
  function SetY(w: Word, y: int): (w': Word)
    ensures w' % 256 == y % 256
    ensures w' / 256 == w / 256
  {
    BfnSetFields(w, y, 1, 256);
    BfnSet(w, y, 1, 256)
  }

  /** BFN_SET(attr1, x, ATTR1_X). */
  function SetX(w: Word, x: int): (w': Word)
    ensures w' % 512 == x % 512
    ensures w' / 512 == w / 512
  {
    BfnSetFields(w, x, 1, 512);
    BfnSet(w, x, 1, 512)
  }

  /** BFN_SET(attr2, id, ATTR2_ID). */
  function SetId(w: Word, id: int): (w': Word)
    ensures w' % 1024 == id % 1024
    ensures w' / 1024 == w / 1024
  {
    BfnSetFields(w, id, 1, 1024);
    BfnSet(w, id, 1, 1024)
  }

  /** BFN_SET(attr2, prio, ATTR2_PRIO). */
  function SetPrio(w: Word, prio: int): (w': Word)
    ensures w' / 1024 % 4 == prio % 4
    ensures w' % 1024 == w % 1024 && w' / 4096 == w / 4096
  {
    BfnSetFields(w, prio, 1024, 4);
    Bits.DivDiv(w, 1024, 4);
    Bits.DivDiv(BfnSet(w, prio, 1024, 4), 1024, 4);
    BfnSet(w, prio, 1024, 4)
  }

  /** BFN_SET(attr2, pbank, ATTR2_PALBANK). */
  function SetPalbank(w: Word, pbank: int): (w': Word)
    ensures w' / 4096 == pbank % 16
    ensures w' % 4096 == w % 4096
  {
    BfnSetFields(w, pbank, 4096, 16);
    BfnSet(w, pbank, 4096, 16)
  }

  /** obj_set_pos: Y into attr0 bits 0-7 and X into attr1 bits 0-8. */
  function ObjSetPos(r: ObjAttr, x: int, y: int): (r': ObjAttr)
    ensures X(r') == x % 512 && Y(r') == y % 256
    ensures r'.attr0 / 256 == r.attr0 / 256 && r'.attr1 / 512 == r.attr1 / 512
    ensures r'.attr2 == r.attr2 && r'.fill == r.fill
  {
    r.(attr0 := SetY(r.attr0, y), attr1 := SetX(r.attr1, x))
  }

  /** obj_hide: attr0's object-mode field (bits 8-9) set to ATTR0_HIDE's
      pattern, bit 9 on and bit 8 off. */
  function ObjHide(r: ObjAttr): (r': ObjAttr)
    ensures ObjMode(r') == 2
    ensures r'.attr0 % 256 == r.attr0 % 256 && r'.attr0 / 1024 == r.attr0 / 1024
    ensures r'.attr1 == r.attr1 && r'.attr2 == r.attr2 && r'.fill == r.fill
  {
    r.(attr0 := BfnSet(r.attr0, 2, 256, 4))
  }

  // ----- The size table -----

  /** A footprint in pixels. */
  datatype Dims = Dims(width: int, height: int)

  /** tonc's oam_sizes[shape][size]: the square, wide and tall rows. */
  const OamSizes: seq<seq<Dims>> := [
    [Dims(8, 8), Dims(16, 16), Dims(32, 32), Dims(64, 64)],
    [Dims(16, 8), Dims(32, 8), Dims(32, 16), Dims(64, 32)],
    [Dims(8, 16), Dims(8, 32), Dims(16, 32), Dims(32, 64)]
  ]

  predicate IsTableSide(n: int)
  {
    n == 8 || n == 16 || n == 32 || n == 64
  }

  /** obj_get_size: the table entry for the record's shape (attr0 bits 14-15)
      and size (attr1 bits 14-15). Shape 3 has no row. */
  function ObjGetSize(r: ObjAttr): (d: Dims)
    requires Shape(r) < 3
    ensures IsTableSide(d.width) && IsTableSide(d.height)
    ensures Shape(r) == 0 ==> d.width == d.height
    ensures Shape(r) == 1 ==> d.width > d.height
    ensures Shape(r) == 2 ==> d.width < d.height
  {
    OamSizes[Shape(r)][Size(r)]
  }
}
