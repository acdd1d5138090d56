/** What a tile pixel is, in terms of video RAM alone: the reading both the line renderer and
    the whole-map renderer of `src/ppu.cpp` are proved against. */
module Pixels {
  import opened Bits
  import opened Layers

  const SCREEN_WIDTH := 160
  const SCREEN_HEIGHT := 144
  const BUFFER_SIDE := 256

  // Indices of the PPU registers inside the IO block that starts at 0xFF10.
  const LCDC := 0x30
  const STAT := 0x31
  const SCROLL_Y := 0x32
  const SCROLL_X := 0x33
  const LY := 0x34
  const LY_COMP := 0x35
  const BGP := 0x37
  const OBP0 := 0x38
  const OBP1 := 0x39
  const WINDOW_Y := 0x3A
  const WINDOW_X := 0x3B

  const TRANSPARENT: u8 := 4

  /** 0x8000-0x9FFF. */
  type Vram = s: seq<u8> | |s| == 0x2000 witness seq(0x2000, _ => 0)
  /** 0xFF10-0xFF8F, of which 0xFF10-0xFF7F is mapped. */
  type IoBlock = s: seq<u8> | |s| == 0x80 witness seq(0x80, _ => 0)

  /** InterleaveBits: the two-bit colour number of a tile row's pixel. */
  function InterleaveBits(a: u8, b: u8, pos: nat): (res: u8)
    requires pos < 8
    ensures res < 4
    ensures res == 0 <==> !Bit(a, pos) && !Bit(b, pos)
  {
    B2N(Bit(a, pos)) + 2 * B2N(Bit(b, pos))
  }

  /** MapColors: look a colour number up in a palette register. */
  function MapColors(val: u8, palette: u8): (shade: u8)
    requires val < 4
    ensures shade < 4
  {
    palette / (if val == 0 then 1 else if val == 1 then 4 else if val == 2 then 16 else 64) % 4
  }

  /** A tile number read as a two's complement byte. */
  function Signed(tile: u8): int { if tile < 128 then tile else tile - 256 }

  /** Where tile data starts, relative to 0x8000: unsigned numbers count from 0x8000,
      signed ones from 0x9000. */
  function TileAddress(lcdc: u8, tile: u8): (a: nat)
    ensures a + 15 < 0x1800
  {
    if Bit(lcdc, 4) then 16 * tile else 0x1000 + 16 * Signed(tile)
  }

  /** Start of one of the two 32x32 tile maps, relative to 0x8000. */
  function MapBase(upper: bool): nat { if upper then 0x1C00 else 0x1800 }

  /** Colour number at (row, col) of the tile stored at `address`. */
  function TilePixel(v: Vram, address: nat, row: nat, col: nat): (c: u8)
    requires address + 2 * row + 1 < 0x2000 && col < 8
    ensures c < 4
  {
    InterleaveBits(v[address + 2 * row], v[address + 2 * row + 1], 7 - col)
  }

  /** Shade at (y, x) of a whole 256x256 tile map. */
  function MapPixel(v: Vram, lcdc: u8, palette: u8, upper: bool, y: nat, x: nat): (shade: u8)
    requires y < 256 && x < 256
    ensures shade < 4
  {
    var tile := v[MapBase(upper) + 32 * (y / 8) + x / 8];
    MapColors(TilePixel(v, TileAddress(lcdc, tile), y % 8, x % 8), palette)
  }

  /** Shade at (y, x) of the background map. */
  function BgMapPixel(v: Vram, io: IoBlock, y: nat, x: nat): (shade: u8)
    requires y < 256 && x < 256
    ensures shade < 4
  {
    MapPixel(v, io[LCDC], io[BGP], Bit(io[LCDC], 3), y, x)
  }

  /** Shade at (y, x) of the window map. */
  function WindowMapPixel(v: Vram, io: IoBlock, y: nat, x: nat): (shade: u8)
    requires y < 256 && x < 256
    ensures shade < 4
  {
    MapPixel(v, io[LCDC], io[BGP], Bit(io[LCDC], 6), y, x)
  }

  /** What one screen line of background must hold. */
  function BgLinePixel(v: Vram, io: IoBlock, enabled: bool, line: nat, i: nat): (shade: u8)
    ensures shade < 4
  {
    if Bit(io[LCDC], 0) && enabled
    then BgMapPixel(v, io, (line + io[SCROLL_Y]) % 256, (io[SCROLL_X] + i) % 256)
    else WHITE
  }

  /** The window reaches this line. */
  predicate WindowShown(io: IoBlock, line: nat) {
    Bit(io[LCDC], 5) && io[WINDOW_Y] < SCREEN_HEIGHT && io[WINDOW_X] as int - 7 < SCREEN_WIDTH && io[WINDOW_Y] <= line
  }

  /** What column `i` holds after the window pass, given what it held before. */
  function WindowLinePixel(v: Vram, io: IoBlock, enabled: bool, windowLine: nat, i: nat, before: u8): u8
    requires windowLine < 256 && i < SCREEN_WIDTH
  {
    var x := i - (io[WINDOW_X] as int - 7);
    if !(Bit(io[LCDC], 0) && enabled) then WHITE
    else if x < 0 then before
    else WindowMapPixel(v, io, windowLine, x)
  }

  /** Background and window together: what a line must hold before sprites. */
  function LineBackground(v: Vram, io: IoBlock, bgOn: bool, windowOn: bool, windowLine: nat, line: nat, i: nat): u8
    requires windowLine < 256 && i < SCREEN_WIDTH
  {
    var bg := BgLinePixel(v, io, bgOn, line, i);
    if WindowShown(io, line) then WindowLinePixel(v, io, windowOn, windowLine, i, bg) else bg
  }

  /** The renderers index the table that starts at 0x8800 with the tile number plus 128,
      wrapped to a byte; that is the signed numbering around 0x9000. */
  lemma WrappedTileIsSigned(lcdc: u8, tile: u8)
    ensures TileAddress(lcdc, tile)
         == if Bit(lcdc, 4) then 16 * tile else 0x800 + 16 * ((tile + 128) % 256)
  {
  }

  /** The scroll sum is wrapped at 256 for the map but at 8 for the tile row. */
  lemma WrapThenTile(n: nat)
    ensures n % 256 % 8 == n % 8
  {
  }

  /** Tile number after the renderers' wrap-around. */
  function WrappedTile(lcdc: u8, tile: u8): u8 {
    if Bit(lcdc, 4) then tile else (tile + 128) % 256
  }

  /** Table-relative addressing, as the renderers do it, reads the map's pixel. */
  lemma {:induction false} TileReadIsMapPixel(v: Vram, lcdc: u8, palette: u8, upper: bool, y: nat, x: nat)
    requires y < 256 && x < 256
    ensures
      var tile := WrappedTile(lcdc, v[MapBase(upper) + (32 * (y / 8) + x / 8)]);
      var at := (if Bit(lcdc, 4) then 0 else 0x800) + (tile * 16 + 2 * (y % 8));
      && at + 1 < 0x1800
      && MapColors(InterleaveBits(v[at], v[at + 1], 7 - x % 8), palette) == MapPixel(v, lcdc, palette, upper, y, x)
  {
    WrappedTileIsSigned(lcdc, v[MapBase(upper) + 32 * (y / 8) + x / 8]);
  }
}
