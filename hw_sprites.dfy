/** btn::hw::sprites: the operations of btn_hw_sprites.cpp on a sprite handle
    updated in place, and on the object attribute memory (OAM) table.

    The hardware table at MEM_OAM is an array of records passed in by the
    caller. Each method is specified by the function of module SpriteOps that
    gives the record it leaves behind. */
module HwSprites {

  import opened ObjAttrs
  import SpriteOps

  /** Number of OAM slots: the Game Boy Advance has 128 object records. */
  const AvailableSprites: nat := 128

  /** btn::hw::sprites::handle: storage with the size and alignment of one
      OBJ_ATTR, which every operation reads and writes as that record. */
  class Handle {
    var attr0: Word
    var attr1: Word
    var attr2: Word
    var fill: Word

    /** The record the handle holds. */
    function Attrs(): ObjAttr
      reads this
    {
      ObjAttr(attr0, attr1, attr2, fill)
    }
  }

  /** `set_tile`: only attr2 bits 0-9 change. */
  method SetTile(tileId: int, sprite: Handle)
    modifies sprite
    ensures sprite.Attrs() == SpriteOps.WithTile(old(sprite.Attrs()), tileId)
  {
    sprite.attr2 := SetId(sprite.attr2, tileId);
  }

  /** `set_palette`: only attr2 bits 12-15 change. */
  method SetPalette(paletteId: int, sprite: Handle)
    modifies sprite
    ensures sprite.Attrs() == SpriteOps.WithPalette(old(sprite.Attrs()), paletteId)
  {
    sprite.attr2 := SetPalbank(sprite.attr2, paletteId);
  }

  /** `set_bg_priority`: only attr2 bits 10-11 change. */
  method SetBgPriority(bgPriority: int, sprite: Handle)
    modifies sprite
    ensures sprite.Attrs() == SpriteOps.WithBgPriority(old(sprite.Attrs()), bgPriority)
  {
    sprite.attr2 := SetPrio(sprite.attr2, bgPriority);
  }

  /** `set_position`: reads the current dimensions, then stores the corner
      (x - width / 2, y - height / 2) through obj_set_pos. */
  method SetPosition(x: int, y: int, sprite: Handle)
    requires Shape(sprite.Attrs()) < 3
    modifies sprite
    ensures sprite.Attrs() == SpriteOps.WithPosition(old(sprite.Attrs()), x, y)
    ensures Shape(sprite.Attrs()) < 3
    ensures SpriteOps.Dimensions(sprite.Attrs()) == SpriteOps.Dimensions(old(sprite.Attrs()))
  {
    var dims := SpriteOps.Dimensions(sprite.Attrs());
    var moved := ObjSetPos(sprite.Attrs(), x - dims.width / 2, y - dims.height / 2);
    sprite.attr0, sprite.attr1 := moved.attr0, moved.attr1;
  }

  /** `hide`: the object mode becomes "hidden". */
  method Hide(sprite: Handle)
    modifies sprite
    ensures sprite.Attrs() == ObjHide(old(sprite.Attrs()))
    ensures ObjMode(sprite.Attrs()) == 2
  {
    sprite.attr0 := ObjHide(sprite.Attrs()).attr0;
  }

  /** `setup`: attr0, attr1 and attr2 are built from the arguments and
      written, `fill` is left alone, and then the sprite is centred at
      (x, y). The colour depth is passed as a bit count, 8 or 4. */
  method Setup(shape: SpriteOps.SpriteShape, size: SpriteOps.SpriteSize, tileId: int, paletteId: int,
               eightBitsPerPixel: bool, x: int, y: int, bgPriority: int, sprite: Handle)
    modifies sprite
    ensures sprite.Attrs()
         == SpriteOps.SetupRecord(shape, size, tileId, paletteId, eightBitsPerPixel, x, y, bgPriority, old(sprite.fill))
  {
    var built := SpriteOps.SetupBase(shape, size, tileId, paletteId, if eightBitsPerPixel then 8 else 4,
                                     bgPriority, sprite.fill);
    sprite.attr0, sprite.attr1, sprite.attr2 := built.attr0, built.attr1, built.attr2;
    assert sprite.Attrs() == built;
    SetPosition(x, y, sprite);
    assert sprite.Attrs() == SpriteOps.WithPosition(built, x, y);
  }

  /** `init` (oam_init over all available slots): every slot of the table
      is hidden; slots past the available ones are not touched. */
  method Init(oam: array<ObjAttr>)
    requires oam.Length >= AvailableSprites
    modifies oam
    ensures forall i :: 0 <= i < AvailableSprites ==> ObjMode(oam[i]) == 2
    ensures oam[AvailableSprites..] == old(oam[AvailableSprites..])
  {
    for n := 0 to AvailableSprites
      invariant forall i :: 0 <= i < n ==> ObjMode(oam[i]) == 2
      invariant oam[n..] == old(oam[n..])
    {
      oam[n] := ObjHide(oam[n]);
    }
  }

  /** `commit`: the first `count` handles, in order, are copied into the
      table; the rest of the table keeps its records. */
  method Commit(sprites: array<Handle>, count: int, oam: array<ObjAttr>)
    requires 0 <= count <= sprites.Length && count <= oam.Length
    modifies oam
    ensures forall i :: 0 <= i < count ==> oam[i] == sprites[i].Attrs()
    ensures oam[count..] == old(oam[count..])
  {
    for n := 0 to count
      invariant forall i :: 0 <= i < n ==> oam[i] == sprites[i].Attrs()
      invariant oam[n..] == old(oam[n..])
    {
      oam[n] := sprites[n].Attrs();
    }
  }

  /** Start-up followed by one frame's commit of three records: the first
      three slots hold the handles' records and slot 3 is still hidden. */
  method InitThenCommitThree(sprites: array<Handle>, oam: array<ObjAttr>)
    requires sprites.Length >= 3 && oam.Length == AvailableSprites
    modifies oam
    ensures forall i :: 0 <= i < 3 ==> oam[i] == sprites[i].Attrs()
    ensures forall i :: 3 <= i < AvailableSprites ==> ObjMode(oam[i]) == 2
  {
    Init(oam);
    Commit(sprites, 3, oam);
    assert forall i :: 3 <= i < AvailableSprites ==> oam[i] == oam[3..][i - 3];
  }
}
