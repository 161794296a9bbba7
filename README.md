# butano sprite attribute layer, modelled in Dafny

This project models `btn::hw::sprites` from butano, the Game Boy Advance layer
that builds and edits object attribute records (tonc's `OBJ_ATTR`), computes a
sprite's on-screen footprint, and copies the records into object attribute
memory (OAM).

- `bits.dfy` (module `Bits`): powers of two, the two's-complement bit `Bit(n, i)`,
  and the division/remainder lemmas that read "a field of a word" bit by bit.
- `obj_attrs.dfy` (module `ObjAttrs`): the record as four 16-bit words `attr0`,
  `attr1`, `attr2` and `fill`, with a view function per hardware field. It also
  defines the tonc macros and helpers the source relies on: `ATTR0_BUILD`,
  `ATTR1_BUILDR`, `ATTR2_BUILD`, `BFN_SET` for each field used, `obj_set_pos`,
  `obj_hide`, `obj_get_size` and the `oam_sizes` table. A word is the number it
  holds. A field of `span` values at bit value `unit` is `w / unit % span`.
  Masking a C `int` to k bits is `% 2^k`, which gives the two's-complement low
  bits.
- `sprite_ops.dfy` (module `SpriteOps`): each operation of
  `btn_hw_sprites.cpp` as a function from the old record to the new one. The
  properties are proved there: field isolation, the dimension rule, the
  centring round trip, the effect of `hide`, and what `setup` builds.
- `hw_sprites.dfy` (module `HwSprites`): the source's own in-place form of
  these operations. A `Handle` class holds the four words and is updated in place by
  `SetTile`, `SetPalette`, `SetBgPriority`, `SetPosition`, `Hide` and `Setup`.
  `Init` and `Commit` are loops over an injected `array<ObjAttr>` that stands
  for the hardware table at `MEM_OAM`. Each method's postcondition ties its new
  state to the matching `SpriteOps` function. `Setup` is the one method that
  does not do what the code does: it uses the corrected colour depth (see
  Findings).

Field layout, as tonc encodes it:

- attr0: Y in bits 0-7, object mode in 8-9, graphics mode in 10-11, mosaic in
  12, colour depth in 13, shape in 14-15.
- attr1: X in bits 0-8, affine index or flips in 9-13, size in 14-15.
- attr2: tile in bits 0-9, priority in 10-11, palette bank in 12-15.

Where a description of this layer and the code disagree, the model follows the
code:

- The record is four words, not three. `handle` has the size and alignment of
  `OBJ_ATTR` (btn_hw_sprites.cpp:13-14), and that includes the `fill` word.
  `setup` never writes `fill`.
- `hide` does not keep the footprint. It sets the mode bits to the hidden
  pattern, and bit 9 of that pattern is the bit `dimensions` reads as double
  size (`ATTR0_HIDE` and `ATTR0_AFF_DBL_BIT` are both 0x0200). After `hide`,
  `dimensions` is twice the table entry. Positioning afterwards therefore uses
  the doubled footprint (`SpriteOps.HideKeepsFields`,
  `SpriteOps.HideShiftsPosition`).
- `setup` as written does not set the colour-depth bit for 8 bits per pixel.
  `SpriteOps.SetupRecordAsWritten` models that code. `SpriteOps.SetupRecord`
  and `HwSprites.Setup` model the corrected form (see Findings).

## Model

| member | source | states |
|---|---|---|
| ObjAttrs.Attr0Build | butano/hw/src/btn_hw_sprites.cpp:31 | Y, object mode, graphics mode, mosaic and shape fields hold their arguments cut to the field width; the colour-depth bit is bit 3 of `bpp` |
| ObjAttrs.Attr1BuildR | butano/hw/src/btn_hw_sprites.cpp:32 | X is cut to 9 bits, the flip bits sit at bits 12-13 and the size at bits 14-15 |
| ObjAttrs.Attr2Build | butano/hw/src/btn_hw_sprites.cpp:33 | tile cut to 10 bits, priority to 2 bits, palette bank to 4 bits, each in its own field |
| ObjAttrs.BfnSetFields | butano/hw/src/btn_hw_sprites.cpp:55 | BFN_SET keeps the bits below and above the field and writes the value, cut to the field width, into it |
| ObjAttrs.SetId | butano/hw/src/btn_hw_sprites.cpp:55 | BFN_SET on the tile field: bits 0-9 become the id mod 1024; bits 10-15 are kept |
| ObjAttrs.SetPalbank | butano/hw/src/btn_hw_sprites.cpp:61 | BFN_SET on the palette field: bits 12-15 become the id mod 16; bits 0-11 are kept |
| ObjAttrs.SetPrio | butano/hw/src/btn_hw_sprites.cpp:74 | BFN_SET on the priority field: bits 10-11 become the priority mod 4; the rest of the word is kept |
| ObjAttrs.ObjSetPos | butano/hw/src/btn_hw_sprites.cpp:68 | obj_set_pos: X becomes x mod 512 and Y becomes y mod 256; everything above those fields, attr2 and fill are kept |
| ObjAttrs.ObjHide | butano/hw/src/btn_hw_sprites.cpp:80 | obj_hide: the object mode becomes 2 (hidden); Y, attr0 bits 10-15, attr1, attr2 and fill are kept |
| ObjAttrs.ObjGetSize | butano/hw/src/btn_hw_sprites.cpp:41-42 | obj_get_size: both sides are 8, 16, 32 or 64; square shapes are square, wide ones wider than tall, tall ones taller than wide |
| SpriteOps.Dimensions | butano/hw/src/btn_hw_sprites.cpp:38-50 | each side lies in 8..128 and is even, so halving it is exact; with the double bit set each side is at least 16 |
| SpriteOps.DoubleBitIsBit9 | butano/hw/src/btn_hw_sprites.cpp:44 | the double flag that `dimensions` tests is bit 9 of attr0, in two's complement |
| SpriteOps.SettingDoubleBitDoubles | butano/hw/src/btn_hw_sprites.cpp:38-50 | for any valid record without the double bit, setting bit 9 keeps shape and size and exactly doubles both sides of `dimensions` |
| ObjAttrs.ModeHighBitIsDouble | butano/hw/src/btn_hw_sprites.cpp:44 | the double bit is set exactly when the object mode is 2 (hidden) or 3 (affine double size) |
| SpriteOps.WithTile | butano/hw/src/btn_hw_sprites.cpp:52-56 | the tile field becomes tile_id mod 1024; attr2 bits 10-15, attr0, attr1 and fill are unchanged |
| SpriteOps.WithTileBits | butano/hw/src/btn_hw_sprites.cpp:55 | bit by bit: attr2 bits 0-9 are bits 0-9 of tile_id in two's complement, bits 10-15 are as before |
| SpriteOps.WithPalette | butano/hw/src/btn_hw_sprites.cpp:58-62 | the palette bank becomes palette_id mod 16; attr2 bits 0-11 and the other words are unchanged |
| SpriteOps.WithPaletteBits | butano/hw/src/btn_hw_sprites.cpp:61 | bit by bit: attr2 bits 12-15 are bits 0-3 of palette_id, bits 0-11 are as before |
| SpriteOps.WithBgPriority | butano/hw/src/btn_hw_sprites.cpp:71-75 | the priority becomes bg_priority mod 4; attr2 bits 0-9 and 12-15 and the other words are unchanged |
| SpriteOps.WithBgPriorityBits | butano/hw/src/btn_hw_sprites.cpp:74 | bit by bit: attr2 bits 10-11 are bits 0-1 of bg_priority, all other bits of attr2 are as before |
| SpriteOps.WithPosition | butano/hw/src/btn_hw_sprites.cpp:64-69 | X is (x - width/2) mod 512 and Y is (y - height/2) mod 256 for the dimensions before the call; shape, size, mode bits, attr2 and fill are unchanged, so the dimensions are too |
| SpriteOps.PositionCentre | butano/hw/src/btn_hw_sprites.cpp:64-69 | adding half the dimensions back to the stored corner gives the requested centre, mod 512 and mod 256 |
| SpriteOps.PositionExample | butano/hw/src/btn_hw_sprites.cpp:64-69 | a 16x16 sprite with the double bit set measures 32x32, and centring it at (100, 80) stores X = 84, Y = 64 |
| SpriteOps.WithPositionBits | butano/hw/src/btn_hw_sprites.cpp:68 | bit by bit: attr1 bits 0-8 and attr0 bits 0-7 are the low bits of the corner; every other bit of attr0 and attr1 is as before |
| SpriteOps.HideKeepsFields | butano/hw/src/btn_hw_sprites.cpp:77-81 | after hide, shape, size, position, tile, palette, priority, graphics mode, mosaic and colour depth are as before; the double bit is set, so the dimensions are twice the table entry |
| SpriteOps.HideShiftsPosition | butano/hw/src/btn_hw_sprites.cpp:44-47 | for a sprite without the double bit, dimensions after hide are twice those before, and centring after hide stores a corner that is half a table side further up and left |
| SpriteOps.HideBits | butano/hw/src/btn_hw_sprites.cpp:80 | bit by bit: after hide, attr0 bit 9 is set, bit 8 is clear, and every other bit of attr0 is as before |
| SpriteOps.SetupBase | butano/hw/src/btn_hw_sprites.cpp:31-34 | the built record has the given shape, size, tile, palette and priority cut to their fields; mode, double bit, graphics mode, mosaic and flips are clear; colour depth is bit 3 of `bpp`; fill is kept |
| SpriteOps.SetupRecordAsWritten | butano/hw/src/btn_hw_sprites.cpp:31 | setup as written never sets the colour-depth bit; its record equals the intended one built for 4 bits per pixel |
| SpriteOps.SetupRecord | butano/hw/src/btn_hw_sprites.cpp:27-36 | setup: shape and size codes, tile mod 1024, palette mod 16, priority mod 4, colour depth as asked, mode, graphics mode, mosaic and flips zero; the dimensions are the undoubled table entry; the position is set_position's; fill is not written |
| SpriteOps.SetupColourDepthDiscrepancy | butano/hw/src/btn_hw_sprites.cpp:31 | the as-written and intended setup differ exactly when 8 bits per pixel is requested |
| HwSprites.SetTile | butano/hw/src/btn_hw_sprites.cpp:52-56 | the handle afterwards holds WithTile of the record before |
| HwSprites.SetPalette | butano/hw/src/btn_hw_sprites.cpp:58-62 | the handle afterwards holds WithPalette of the record before |
| HwSprites.SetBgPriority | butano/hw/src/btn_hw_sprites.cpp:71-75 | the handle afterwards holds WithBgPriority of the record before |
| HwSprites.SetPosition | butano/hw/src/btn_hw_sprites.cpp:64-69 | the handle afterwards holds WithPosition of the record before, and its dimensions are unchanged |
| HwSprites.Hide | butano/hw/src/btn_hw_sprites.cpp:77-81 | the handle afterwards holds obj_hide of the record before; its object mode is hidden |
| HwSprites.Setup | butano/hw/src/btn_hw_sprites.cpp:27-36 | the handle afterwards holds SetupRecord (the corrected colour depth) of the arguments and its old fill word |
| HwSprites.Init | butano/hw/src/btn_hw_sprites.cpp:22-25 | every one of the 128 available slots is hidden; slots beyond them are unchanged |
| HwSprites.Commit | butano/hw/src/btn_hw_sprites.cpp:83-86 | slot i of the table equals handle i for every i < count, and every slot from count on keeps its record |
| HwSprites.InitThenCommitThree | butano/hw/src/btn_hw_sprites.cpp:83-86 | after init and a commit of three handles, slots 0-2 hold the handles and slots 3-127 are still hidden |

## Left out

- `vram()` and `MEM_OAM` (btn_hw_sprites.cpp:16-19): the hardware table is an array passed to `Init` and `Commit`.
- The `static_assert` size and alignment checks (btn_hw_sprites.cpp:13-14) are compile-time only. They are the reason the record has four words.
- When `commit` may run (the vertical blank) is decided by the caller's scheduler and is not visible here.
- `memory::copy` is modelled by its contract as an ordered copy of `count` records, one per loop step. Its word-level or DMA implementation is not part of this model.
- HwSprites.Setup: builds the corrected record, with attr0 bit 13 set for 8 bits per pixel. The code at btn_hw_sprites.cpp:31 never sets that bit. The as-written behaviour is modelled only as the function `SpriteOps.SetupRecordAsWritten`, not as an in-place method.
- HwSprites.Init: promises only that every available slot is hidden. `oam_init` is not part of this model, so what it writes into the other fields, the fill words and the affine matrices is not stated. The loop body applies `obj_hide` to each slot.
- HwSprites.Init: `available_sprites()` is taken as 128, the Game Boy Advance's number of objects; its header is not part of this model.
- `tonc.h` is not part of this model. The macros are written out from tonc's documented definitions: `ATTR0_BUILD` tests `bpp & 8`; `ATTR0_HIDE` and `ATTR0_AFF_DBL_BIT` are both bit 9; `oam_sizes` is the 3x4 table.
- SpriteOps.Dimensions: shape 3 has no row in the size table, so `Shape(r) < 3` is a precondition of `dimensions` and of everything that calls it, not a modelled error path.
- C `int` overflow in `x - width / 2` and similar expressions is not modelled. Integers are unbounded; only the masking to the field width is.
- `tests/profiler/src/main.cpp` is a benchmark of unrelated platform routines and is not modelled.

## Findings

| source | as written | input that shows it | evidently intended | confidence | as-written member | corrected member |
|---|---|---|---|---|---|---|
| butano/hw/src/btn_hw_sprites.cpp:31 | the bool `eight_bits_per_pixel` is passed as ATTR0_BUILD's `bpp`; the macro keeps only `bpp & 8`, and `true` converts to 1, so attr0 bit 13 is never set | `setup(square, small, 0, 0, true, 0, 0, 0, h)` leaves attr0 bit 13 clear, so the sprite is shown as 4 bits per pixel | pass 8 for true and 4 for false, so bit 13 reflects the flag | not executed | SpriteOps.SetupRecordAsWritten | SpriteOps.SetupRecord |
