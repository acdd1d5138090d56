/** The tile map readings against the register layout of the hardware: masks, shifts and addresses as
    the machine has them, with no use of the readings themselves. */
module PixelLaws {
  import opened Bits
  import opened Pixels

  const IO_START := 0xFF10
  const VRAM_START := 0x8000

  /** A stored byte as the machine's own. */
  function Byte(n: u8): (b: bv8)
    ensures b as int == n
    decreases n
  {
    if n == 0 then 0
    else
      AppendDigit(Byte(n / 2), n % 2 == 1);
      (Byte(n / 2) << 1) | (if n % 2 == 1 then 1 else 0)
  }

  lemma AppendDigit(b: bv8, one: bool)
    requires b < 128
    ensures ((b << 1) | (if one then 1 else 0)) as int == 2 * b as int + B2N(one)
  {
  }

  function Lookup(val: nat, palette: bv8): bv8
    requires val < 4
  {
    (palette >> (2 * val)) & 3
  }

  function Interleave(a: bv8, b: bv8, pos: nat): bv8
    requires pos < 8
  {
    var mask: bv8 := 1 << pos;
    (if a & mask == mask then 1 else 0) + (if b & mask == mask then 2 else 0)
  }

  lemma LowTwo(b: bv8)
    ensures (b & 3) as int == b as int % 4
  {
  }

  lemma ShiftByTwo(b: bv8)
    ensures (b >> 2) as int == b as int / 4
  {
  }

  lemma ShiftByFour(b: bv8)
    ensures (b >> 4) as int == b as int / 16
  {
  }

  lemma ShiftBySix(b: bv8)
    ensures (b >> 6) as int == b as int / 64
  {
  }

  /** The palette register read by shifting it right. */
  lemma {:induction false} MapColorsIsShift(val: nat, palette: bv8)
    requires val < 4
    ensures MapColors(val, palette as int) == Lookup(val, palette) as int
  {
    LowTwo(palette >> (2 * val));
    if val == 0 {
      assert palette >> 0 == palette;
    } else if val == 1 {
      ShiftByTwo(palette);
    } else if val == 2 {
      ShiftByFour(palette);
    } else {
      ShiftBySix(palette);
    }
  }

  /** The four shades of a palette, lowest colour first, are its byte in base 4. */
  lemma {:induction false} PaletteDigits(palette: u8)
    ensures MapColors(0, palette) + 4 * MapColors(1, palette) + 16 * MapColors(2, palette) + 64 * MapColors(3, palette)
         == palette
  {
    var q := palette / 4;
    assert palette == 4 * q + palette % 4;
    assert q == 4 * (q / 4) + q % 4 && palette / 16 == q / 4 && palette / 64 == q / 16;
  }

  lemma MaskEqualsBit(b: bv8, pos: nat)
    requires pos < 8
    ensures (b & (1 << pos) == 1 << pos) == Bit(b as int, pos)
  {
    DigitIsMask(b, pos);
    OneBit(b, 1 << pos);
    MaskIsOneBit(pos);
  }

  /** Of a mask with one bit, either nothing or everything is set. */
  lemma OneBit(b: bv8, m: bv8)
    requires m & (m - 1) == 0 && m != 0
    ensures b & m == m <==> b & m != 0
  {
  }

  lemma MaskIsOneBit(pos: nat)
    requires pos < 8
    ensures var m: bv8 := 1 << pos; m & (m - 1) == 0 && m != 0
  {
  }

  /** The colour number found by testing both planes with a mask. */
  lemma {:induction false} InterleaveIsMask(a: bv8, b: bv8, pos: nat)
    requires pos < 8
    ensures InterleaveBits(a as int, b as int, pos) == Interleave(a, b, pos) as int
  {
    MaskEqualsBit(a, pos);
    MaskEqualsBit(b, pos);
  }

  // The registers, by address.

  function Lcdc(io: IoBlock): bv8 { Byte(io[0xFF40 - IO_START]) }
  function ScrollY(io: IoBlock): u8 { io[0xFF42 - IO_START] }
  function ScrollX(io: IoBlock): u8 { io[0xFF43 - IO_START] }
  function Palette(io: IoBlock): bv8 { Byte(io[0xFF47 - IO_START]) }
  function WindowTop(io: IoBlock): u8 { io[0xFF4A - IO_START] }
  function WindowLeft(io: IoBlock): u8 { io[0xFF4B - IO_START] }

  lemma LcdcBit(io: IoBlock, i: nat)
    requires i < 8
    ensures Bit(io[LCDC], i) == (Lcdc(io) & (1 << i) != 0)
  {
    DigitIsMask(Lcdc(io), i);
  }

  lemma LcdcBits(io: IoBlock)
    ensures Bit(io[LCDC], 0) == (Lcdc(io) & 0x01 != 0) && Bit(io[LCDC], 3) == (Lcdc(io) & 0x08 != 0)
    ensures Bit(io[LCDC], 4) == (Lcdc(io) & 0x10 != 0) && Bit(io[LCDC], 5) == (Lcdc(io) & 0x20 != 0)
    ensures Bit(io[LCDC], 6) == (Lcdc(io) & 0x40 != 0)
  {
    hide Bit, Lcdc;
    LcdcBit(io, 0);
    LcdcBit(io, 3);
    LcdcBit(io, 4);
    LcdcBit(io, 5);
    LcdcBit(io, 6);
  }

  /** Pixel (y, x) of the 256x256 picture whose tile map starts at `mapAt`: the tile number from the
      map, two bytes of its row, the leftmost column in the top bit, the palette. */
  function Reference(v: Vram, lcdc: bv8, palette: bv8, mapAt: nat, y: nat, x: nat): bv8
    requires y < 256 && x < 256 && (mapAt == 0x9800 || mapAt == 0x9C00)
  {
    Lookup(TileColor(v, TileData(lcdc, v[mapAt + 32 * (y / 8) + x / 8 - VRAM_START]), y % 8, x % 8), palette)
  }

  /** The colour number at line `r` and column `c` of the tile at address `data`. */
  function TileColor(v: Vram, data: nat, r: nat, c: nat): (color: nat)
    requires 0x8000 <= data <= 0x97F0 && r < 8 && c < 8
    ensures color < 4
  {
    var row := data + 2 * r - VRAM_START;
    InterleaveRange(Byte(v[row]), Byte(v[row + 1]), 7 - c);
    Interleave(Byte(v[row]), Byte(v[row + 1]), 7 - c) as int
  }

  /** Where the tile's sixteen bytes are. */
  function TileData(lcdc: bv8, tile: u8): (a: nat)
    ensures 0x8000 <= a <= 0x97F0
  {
    if lcdc & 0x10 != 0 then 0x8000 + 16 * tile
    else if tile < 128 then 0x9000 + 16 * tile
    else 0x9000 - 16 * (256 - tile as int)
  }

  lemma InterleaveRange(a: bv8, b: bv8, pos: nat)
    requires pos < 8
    ensures Interleave(a, b, pos) as int < 4
  {
  }

  lemma {:induction false} MapPixelIsReference(v: Vram, lcdc: bv8, palette: bv8, upper: bool, y: nat, x: nat)
    requires y < 256 && x < 256
    ensures MapPixel(v, lcdc as int, palette as int, upper, y, x)
         == Reference(v, lcdc, palette, if upper then 0x9C00 else 0x9800, y, x) as int
  {
    hide Bit, MapColors, Lookup, TileAddress, TileData, TilePixel, TileColor;
    var tile := v[MapBase(upper) + 32 * (y / 8) + x / 8];
    DataIsReference(lcdc, tile);
    TileColorIsPixel(v, TileData(lcdc, tile), y % 8, x % 8);
    MapColorsIsShift(TileColor(v, TileData(lcdc, tile), y % 8, x % 8), palette);
  }

  lemma TileColorIsPixel(v: Vram, data: nat, r: nat, c: nat)
    requires 0x8000 <= data <= 0x97F0 && r < 8 && c < 8
    ensures TilePixel(v, data - VRAM_START, r, c) == TileColor(v, data, r, c)
  {
    hide Bit, InterleaveBits, Interleave, Byte;
    ColorIsReference(v, data + 2 * r - VRAM_START, 7 - c);
  }

  lemma DataIsReference(lcdc: bv8, tile: u8)
    ensures TileAddress(lcdc as int, tile) == TileData(lcdc, tile) - VRAM_START
  {
    DigitIsMask(lcdc, 4);
    hide Bit;
  }

  lemma ColorIsReference(v: Vram, row: nat, pos: nat)
    requires row + 1 < 0x2000 && pos < 8
    ensures InterleaveBits(v[row], v[row + 1], pos) == Interleave(Byte(v[row]), Byte(v[row + 1]), pos) as int
  {
    hide Bit, Byte;
    InterleaveIsMask(Byte(v[row]), Byte(v[row + 1]), pos);
  }

  /** The background map is chosen by bit 3 of 0xFF40 and coloured by 0xFF47. */
  lemma {:induction false} BgMapIsReference(v: Vram, io: IoBlock, y: nat, x: nat)
    requires y < 256 && x < 256
    ensures BgMapPixel(v, io, y, x) == Reference(v, Lcdc(io), Palette(io), BgMap(io), y, x) as int
  {
    hide MapPixel, Reference, Bit, Byte;
    LcdcBits(io);
    MapPixelIsReference(v, Lcdc(io), Palette(io), Bit(io[LCDC], 3), y, x);
  }

  function BgMap(io: IoBlock): nat { if Lcdc(io) & 0x08 != 0 then 0x9C00 else 0x9800 }
  function WindowMap(io: IoBlock): nat { if Lcdc(io) & 0x40 != 0 then 0x9C00 else 0x9800 }

  /** The window map by bit 6. */
  lemma {:induction false} WindowMapIsReference(v: Vram, io: IoBlock, y: nat, x: nat)
    requires y < 256 && x < 256
    ensures WindowMapPixel(v, io, y, x) == Reference(v, Lcdc(io), Palette(io), WindowMap(io), y, x) as int
  {
    hide MapPixel, Reference, Bit, Byte;
    LcdcBits(io);
    MapPixelIsReference(v, Lcdc(io), Palette(io), Bit(io[LCDC], 6), y, x);
  }

  /** A background line is the picture scrolled by 0xFF42 and 0xFF43, or white without bit 0. */
  lemma {:induction false} BgLineIsReference(v: Vram, io: IoBlock, line: nat, i: nat)
    ensures var y, x := (ScrollY(io) + line) % 256, (ScrollX(io) + i) % 256;
      BgLinePixel(v, io, true, line, i) ==
        if Lcdc(io) & 0x01 == 0 then 0 else Reference(v, Lcdc(io), Palette(io), BgMap(io), y, x) as int
  {
    hide BgMapPixel, Reference, Bit, Byte, BgMap;
    LcdcBits(io);
    BgMapIsReference(v, io, (ScrollY(io) + line) % 256, (ScrollX(io) + i) % 256);
  }

  /** The window is on a line from 0xFF4A down if bit 5 is on and its left edge, seven to the left of
      0xFF4B, is on the screen. */
  lemma {:induction false} WindowLines(io: IoBlock, line: nat)
    requires line < 144
    ensures WindowShown(io, line) <==> Lcdc(io) & 0x20 != 0 && WindowTop(io) <= line && WindowLeft(io) < 167
  {
    hide Bit, Byte, Lcdc;
    LcdcBits(io);
  }

  /** Dot `c` of the window's row lies `c` to the right of that edge. */
  lemma {:induction false} WindowIsReference(v: Vram, io: IoBlock, row: nat, i: nat, before: u8)
    requires row < 256 && i < 160
    ensures WindowLinePixel(v, io, true, row, i, before) ==
      if Lcdc(io) & 0x01 == 0 then 0
      else if i + 7 < WindowLeft(io) then before
      else Reference(v, Lcdc(io), Palette(io), WindowMap(io), row, i + 7 - WindowLeft(io)) as int
  {
    hide WindowMapPixel, Reference, Bit, Byte, WindowMap;
    LcdcBits(io);
    if i + 7 >= WindowLeft(io) {
      WindowMapIsReference(v, io, row, i + 7 - WindowLeft(io));
    }
  }
}
