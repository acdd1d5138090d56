/** Sprite dots against the layout of the object table: masks and addresses as the machine has them,
    and what each attribute bit does to a picture. */
module SpriteLaws {
  import opened Bits
  import opened Layers
  import opened Pixels
  import opened PixelLaws
  import opened Sprites

  /** A dot of one sprite: its shade, and whether it goes behind the background. */
  datatype SpriteDot = NoDot | SpriteDot(shade: nat, behind: bool)

  predicate LcdcSet(io: IoBlock, mask: bv8) { Lcdc(io) & mask != 0 }

  predicate AttrSet(sc: Scene, i: nat, mask: bv8)
    requires i < 40
  {
    Byte(sc.oam[4 * i + 3]) & mask != 0
  }

  function Lines(io: IoBlock): nat { if LcdcSet(io, 0x04) then 16 else 8 }

  /** Tile numbers of 16-line sprites are even. */
  function FirstTile(sc: Scene, i: nat): (tile: u8)
    requires i < 40
  {
    var tile := Byte(sc.oam[4 * i + 2]);
    EvenTile(tile);
    if LcdcSet(sc.io, 0x04) then (tile & 0xFE) as int else tile as int
  }

  lemma EvenTile(tile: bv8)
    ensures (tile & 0xFE) as int == tile as int - tile as int % 2 < 255
  {
  }

  /** Where line `r` of the sprite has its two bytes, and in which bit column `c`, after flipping. */
  function RawRow(sc: Scene, i: nat, r: nat): (row: nat)
    requires i < 40 && r < Lines(sc.io)
    ensures row + 1 < 0x2000
  {
    16 * FirstTile(sc, i) + 2 * (if AttrSet(sc, i, 0x40) then Lines(sc.io) - 1 - r else r)
  }

  function RawBit(sc: Scene, i: nat, c: nat): (pos: nat)
    requires i < 40 && c < 8
    ensures pos < 8
  {
    if AttrSet(sc, i, 0x20) then c else 7 - c
  }

  /** The colour number at line `r` and column `c` of the sprite in OAM entry `i`. */
  function RawColor(sc: Scene, i: nat, r: nat, c: nat): (color: nat)
    requires i < 40 && r < Lines(sc.io) && c < 8
    ensures color < 4
  {
    var row := RawRow(sc, i, r);
    InterleaveRange(Byte(sc.v[row]), Byte(sc.v[row + 1]), RawBit(sc, i, c));
    Interleave(Byte(sc.v[row]), Byte(sc.v[row + 1]), RawBit(sc, i, c)) as int
  }

  /** The sprite's rectangle holds column `x` of the line: Y counts from 16 above the screen, X from 8
      left of it. */
  predicate InBox(sc: Scene, i: nat, x: nat)
    requires i < 40
  {
    var top, left := sc.oam[4 * i] as int, sc.oam[4 * i + 1] as int;
    top <= sc.line + 16 < top + Lines(sc.io) && left <= x + 8 < left + 8
  }

  /** The palette register that bit 4 names. */
  function SpritePalette(sc: Scene, i: nat): bv8
    requires i < 40
  {
    Byte(sc.io[if AttrSet(sc, i, 0x10) then 0xFF49 - IO_START else 0xFF48 - IO_START])
  }

  /** What OAM entry `i` puts at column `x` of the scene's line: colour 0 is no dot, bit 7 goes behind. */
  function Reference(sc: Scene, i: nat, x: nat): SpriteDot
    requires i < 40
  {
    if !InBox(sc, i, x) then NoDot
    else
      var color := RawColor(sc, i, sc.line + 16 - sc.oam[4 * i], x + 8 - sc.oam[4 * i + 1]);
      if color == 0 then NoDot
      else SpriteDot(Lookup(color, SpritePalette(sc, i)) as int, AttrSet(sc, i, 0x80))
  }

  lemma AttrBit(sc: Scene, i: nat, k: nat)
    requires i < 40 && k < 8
    ensures Bit(sc.Attr(i), k) == AttrSet(sc, i, 1 << k)
  {
    DigitIsMask(Byte(sc.oam[4 * i + 3]), k);
  }

  lemma {:induction false} AttrBits(sc: Scene, i: nat)
    requires i < 40
    ensures Bit(sc.Attr(i), 4) == AttrSet(sc, i, 0x10) && Bit(sc.Attr(i), 5) == AttrSet(sc, i, 0x20)
    ensures Bit(sc.Attr(i), 6) == AttrSet(sc, i, 0x40) && Bit(sc.Attr(i), 7) == AttrSet(sc, i, 0x80)
  {
    hide Bit, AttrSet;
    AttrBit(sc, i, 4);
    AttrBit(sc, i, 5);
    AttrBit(sc, i, 6);
    AttrBit(sc, i, 7);
  }

  lemma HeightIsLines(sc: Scene)
    ensures sc.Height() == Lines(sc.io) && sc.Big() == LcdcSet(sc.io, 0x04)
  {
    LcdcBit(sc.io, 2);
    hide Bit, Lcdc;
  }

  lemma TileIsFirst(sc: Scene, i: nat)
    requires i < 40
    ensures FirstTile(sc, i) == if sc.Big() then sc.Tile(i) - sc.Tile(i) % 2 else sc.Tile(i)
  {
    HeightIsLines(sc);
    EvenTile(Byte(sc.oam[4 * i + 2]));
    hide Bit, Byte, LcdcSet, Scene.Big;
  }

  lemma {:induction false} RowIsRaw(sc: Scene, i: nat)
    requires sc.Visible(i)
    ensures var r := sc.line - sc.PosY(i); 0 <= r < Lines(sc.io) && sc.RowAddress(i) == RawRow(sc, i, r)
  {
    HeightIsLines(sc);
    AttrBits(sc, i);
    TileIsFirst(sc, i);
    hide Bit, AttrSet, LcdcSet, FirstTile, Lines, Scene.Big, Scene.Height;
  }

  lemma {:induction false} ColorIsRaw(sc: Scene, i: nat, c: nat)
    requires i < 40 && sc.Visible(i) && c < 8
    ensures 0 <= sc.line as int - sc.PosY(i) < Lines(sc.io)
    ensures sc.Colour(i, c) == RawColor(sc, i, sc.line - sc.PosY(i), c)
  {
    hide Bit, Byte, AttrSet, LcdcSet, Interleave, InterleaveBits, RawRow, Lines, Scene.RowAddress, Scene.Visible;
    RowIsRaw(sc, i);
    BitIsRaw(sc, i, c);
    ColorIsReference(sc.v, sc.RowAddress(i), RawBit(sc, i, c));
    hide RawBit;
  }

  lemma BitIsRaw(sc: Scene, i: nat, c: nat)
    requires i < 40 && c < 8
    ensures RawBit(sc, i, c) == if Bit(sc.Attr(i), 5) then c else 7 - c
  {
    hide Bit, AttrSet;
    AttrBits(sc, i);
  }

  lemma {:induction false} BoxIsVisible(sc: Scene, i: nat, x: nat)
    requires i < 40 && x < 160
    ensures InBox(sc, i, x) <==> sc.Visible(i) && sc.PosX(i) <= x < sc.PosX(i) + 8
  {
    HeightIsLines(sc);
    hide Bit, Byte, LcdcSet, Lines, Scene.Big, Scene.Height;
  }

  lemma ShadeIsLookup(sc: Scene, i: nat, color: u8)
    requires i < 40 && color < 4
    ensures MapColors(color, if Bit(sc.Attr(i), 4) then sc.io[OBP1] else sc.io[OBP0])
         == Lookup(color, SpritePalette(sc, i)) as int
  {
    AttrBits(sc, i);
    hide Bit, Byte, AttrSet;
    MapColorsIsShift(color, SpritePalette(sc, i));
  }

  lemma {:induction false} DotInBox(sc: Scene, i: nat, x: nat)
    requires i < 40 && sc.Visible(i) && x < 160 && sc.PosX(i) <= x < sc.PosX(i) + 8 && InBox(sc, i, x)
    ensures DotAgrees(sc, i, x)
  {
    hide Bit, Byte, AttrSet, LcdcSet, Lines, RawColor, MapColors, Lookup, SpritePalette, Scene.Colour, Scene.Visible;
    AttrBits(sc, i);
    ColorIsRaw(sc, i, x - sc.PosX(i));
    ShadeIsLookup(sc, i, sc.Colour(i, x - sc.PosX(i)));
  }

  ghost predicate DotAgrees(sc: Scene, i: nat, x: nat)
    requires i < 40
  {
    match Reference(sc, i, x)
    case NoDot => sc.FrontDot(i, x) == Clear && sc.BehindDot(i, x) == Clear
    case SpriteDot(shade, behind) =>
      && shade < 4
      && sc.FrontDot(i, x) == (if behind then Clear else Paint(shade))
      && sc.BehindDot(i, x) == (if behind then Paint(shade) else Clear)
  }

  /** Both layers' dots of every sprite are those of the table's layout. */
  lemma {:induction false} DotIsReference(sc: Scene, i: nat, x: nat)
    requires i < 40 && x < 160
    ensures DotAgrees(sc, i, x)
  {
    BoxIsVisible(sc, i, x);
    hide InBox, Scene.Visible, RawColor, Scene.Colour, Bit, MapColors, Lookup;
    if InBox(sc, i, x) {
      DotInBox(sc, i, x);
    }
  }

  // What the flip bits do, as laws between scenes.

  /** Without flips a sprite's dots are those of its tile; lines 8-15 are those of the odd tile. */
  lemma {:induction false} UnflippedIsTile(sc: Scene, i: nat, c: nat)
    requires sc.Visible(i) && c < 8 && !Bit(sc.Attr(i), 5) && !Bit(sc.Attr(i), 6)
    ensures var r := sc.line - sc.PosY(i);
      var tile := if Bit(sc.io[LCDC], 2) then sc.Tile(i) - sc.Tile(i) % 2 + r / 8 else sc.Tile(i);
      r < 16 && sc.Colour(i, c) == TilePixel(sc.v, 16 * tile, r % 8, c)
  {
    hide Bit, InterleaveBits;
  }

  /** The scenes differ only in bit `k` of sprite `i`'s attributes, and perhaps in the line. */
  ghost predicate DifferInBit(a: Scene, b: Scene, i: nat, k: nat) {
    && i < 40 && a.v == b.v && a.io == b.io
    && (forall n :: 0 <= n < 160 && n != 4 * i + 3 ==> a.oam[n] == b.oam[n])
    && (forall n: nat :: n < 8 ==> Bit(a.Attr(i), n) == (Bit(b.Attr(i), n) != (n == k)))
  }

  /** Bit 5 mirrors a sprite in its columns. */
  lemma {:induction false} FlipMirrorsColumns(a: Scene, b: Scene, i: nat, c: nat)
    requires DifferInBit(a, b, i, 5) && a.line == b.line && a.Visible(i) && c < 8
    ensures b.Visible(i) && a.Colour(i, c) == b.Colour(i, 7 - c)
  {
    SameBox(a, b, i, 5);
    assert Bit(a.Attr(i), 5) != Bit(b.Attr(i), 5) && Bit(a.Attr(i), 6) == Bit(b.Attr(i), 6);
    hide Bit, InterleaveBits;
    assert a.TileRow(i) == b.TileRow(i) && a.RowAddress(i) == b.RowAddress(i);
  }

  /** Bit 6 mirrors it in its lines, over the whole height of 8 or 16. */
  lemma {:induction false} FlipMirrorsLines(a: Scene, b: Scene, i: nat, r: nat, c: nat)
    requires DifferInBit(a, b, i, 6) && r < a.Height() && c < 8
    requires a.line == a.PosY(i) + r && b.line == a.PosY(i) + (a.Height() - 1 - r) && a.Visible(i)
    ensures b.Visible(i) && a.Colour(i, c) == b.Colour(i, c)
  {
    SameBox(a, b, i, 6);
    assert Bit(a.Attr(i), 6) != Bit(b.Attr(i), 6) && Bit(a.Attr(i), 5) == Bit(b.Attr(i), 5);
    hide Bit, InterleaveBits;
    assert a.TileRow(i) == b.TileRow(i) && a.RowAddress(i) == b.RowAddress(i);
  }

  lemma SameBox(a: Scene, b: Scene, i: nat, k: nat)
    requires DifferInBit(a, b, i, k)
    ensures a.PosY(i) == b.PosY(i) && a.XByte(i) == b.XByte(i) && a.Tile(i) == b.Tile(i)
    ensures a.Height() == b.Height() && a.Big() == b.Big()
  {
    assert a.oam[4 * i] == b.oam[4 * i] && a.oam[4 * i + 1] == b.oam[4 * i + 1] && a.oam[4 * i + 2] == b.oam[4 * i + 2];
  }
}
