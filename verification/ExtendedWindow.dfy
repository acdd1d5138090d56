/** The extended game window: the whole 256x256 background map with the visible viewport laid
    over it. Its map loop is a second, independent renderer of the background. */
module ExtendedWindow {
  import opened Bits
  import opened Pixels
  import opened PpuDraw

  datatype Rgb = Rgb(r: u8, g: u8, b: u8)

  type Palette = s: seq<Rgb> | |s| == 4 witness seq(4, _ => Rgb(0, 0, 0))

  function ToTextureColor(c: Rgb): nat { c.r * 0x10000 + c.g * 0x100 + c.b }

  /** The colour of the frame around the viewport. */
  const VIEW_BOX := 0xFF0000

  /** The viewport's outermost dots. */
  predicate OnFrame(d: nat, e: nat) {
    d < SCREEN_HEIGHT && e < SCREEN_WIDTH && (d == 0 || d == SCREEN_HEIGHT - 1 || e == 0 || e == SCREEN_WIDTH - 1)
  }

  /** The texture's colour holds red, green and blue from its third byte down. */
  lemma {:induction false} TextureBytes(c: Rgb)
    ensures var t := ToTextureColor(c);
      t / 0x10000 == c.r as int && t / 0x100 % 0x100 == c.g as int && t % 0x100 == c.b as int
    ensures VIEW_BOX == ToTextureColor(Rgb(255, 0, 0))
  {
    var rg := c.r as int * 0x100 + c.g as int;
    assert ToTextureColor(c) == 0x100 * rg + c.b as int;
  }

  /** Pixel (y, x) of a texture 256 pixels wide. */
  function At(pixels: array<int>, y: nat, x: nat): int
    requires pixels.Length == BUFFER_SIDE * BUFFER_SIDE && y < BUFFER_SIDE && x < BUFFER_SIDE
    reads pixels
  {
    pixels[y * BUFFER_SIDE + x]
  }

  /** Offset of map coordinate `a` inside a viewport that starts at `start` and wraps. */
  function Offset(a: nat, start: u8): (d: nat)
    ensures d < BUFFER_SIDE
  {
    (a - start) % BUFFER_SIDE
  }

  lemma {:induction false} OffsetInverts(d: nat, start: u8)
    requires d < BUFFER_SIDE
    ensures Offset((d + start) % BUFFER_SIDE, start) == d
  {
    assert (d + start) % BUFFER_SIDE == if d + start < BUFFER_SIDE then d + start else d + start - BUFFER_SIDE;
  }

  lemma {:induction false} OffsetOf(a: nat, start: u8)
    requires a < BUFFER_SIDE
    ensures (Offset(a, start) + start) % BUFFER_SIDE == a
  {
    assert Offset(a, start) == if a >= start then a - start else a - start + BUFFER_SIDE;
  }

  class ExtGameWindow {
    const pixels: array<int>
    const palette: Palette

    ghost predicate Wired(p: Ppu) {
      p.Wired() && pixels.Length == BUFFER_SIDE * BUFFER_SIDE
    }

    function Colour(shade: u8): int
      requires shade < 4
    {
      ToTextureColor(palette[shade])
    }

    /** The map loop: every pixel of the texture is the background map's. */
    method DrawMap(p: Ppu)
      requires Wired(p) && p.vram as object != pixels && p.io as object != pixels
      modifies pixels
      ensures forall y: nat, x: nat :: y < BUFFER_SIDE && x < BUFFER_SIDE ==>
        At(pixels, y, x) == Colour(BgMapPixel(p.vram[..], p.io[..], y, x))
    {
      ghost var v: Vram, r: IoBlock := p.vram[..], p.io[..];
      for y := 0 to BUFFER_SIDE
        invariant p.vram[..] == v && p.io[..] == r
        invariant forall b: nat, a: nat :: b < y && a < BUFFER_SIDE ==>
          At(pixels, b, a) == Colour(BgMapPixel(v, r, b, a))
      {
        for x := 0 to BUFFER_SIDE
          invariant p.vram[..] == v && p.io[..] == r
          invariant forall b: nat, a: nat :: b < y && a < BUFFER_SIDE ==>
            At(pixels, b, a) == Colour(BgMapPixel(v, r, b, a))
          invariant forall a: nat :: a < x ==> At(pixels, y, a) == Colour(BgMapPixel(v, r, y, a))
        {
          var val := p.ReadTilePixel(Bit(p.io[LCDC], 3), y / 8 * 32 + x / 8, y % 8, x % 8, y, x);
          pixels[y * BUFFER_SIDE + x] := Colour(val);
        }
      }
    }

    /** Position (d, e) of the viewport has been passed by loops that stand at (y, x). */
    static predicate Passed(d: nat, e: nat, y: nat, x: nat) {
      (d < y && e < SCREEN_WIDTH) || (d == y && e < x)
    }

    /** The dot the viewport shows at (d, e), over `under`. */
    function Dot(p: Ppu, sprites: bool, d: nat, e: nat, under: int): int
      requires p.Wired() && p.ShadesInRange() && d < SCREEN_HEIGHT && e < SCREEN_WIDTH
      reads p.bgBuffer, p.spriteBuffer
    {
      if !sprites then Colour(p.bgBuffer[d, e])
      else if p.spriteBuffer[d, e] == TRANSPARENT then under else Colour(p.spriteBuffer[d, e])
    }

    /** The background loop (`sprites` false) or the sprite loop over the viewport. */
    method OverlayViewport(p: Ppu, sprites: bool)
      requires Wired(p) && p.ShadesInRange() && p.io as object != pixels
      modifies pixels
      ensures var vy, vx := p.io[SCROLL_Y], p.io[SCROLL_X];
        forall b: nat, a: nat :: b < BUFFER_SIDE && a < BUFFER_SIDE ==> (At(pixels, b, a) ==
          if Offset(b, vy) < SCREEN_HEIGHT && Offset(a, vx) < SCREEN_WIDTH
          then Dot(p, sprites, Offset(b, vy), Offset(a, vx), old(At(pixels, b, a))) else old(At(pixels, b, a)))
    {
      var vy, vx := p.io[SCROLL_Y], p.io[SCROLL_X];
      for y := 0 to SCREEN_HEIGHT
        invariant forall b: nat, a: nat :: b < BUFFER_SIDE && a < BUFFER_SIDE ==> (At(pixels, b, a) ==
          if Passed(Offset(b, vy), Offset(a, vx), y, 0)
          then Dot(p, sprites, Offset(b, vy), Offset(a, vx), old(At(pixels, b, a))) else old(At(pixels, b, a)))
      {
        for x := 0 to SCREEN_WIDTH
          invariant forall b: nat, a: nat :: b < BUFFER_SIDE && a < BUFFER_SIDE ==> (At(pixels, b, a) ==
            if Passed(Offset(b, vy), Offset(a, vx), y, x)
            then Dot(p, sprites, Offset(b, vy), Offset(a, vx), old(At(pixels, b, a))) else old(At(pixels, b, a)))
        {
          var y2, x2 := (y + vy) % BUFFER_SIDE, (x + vx) % BUFFER_SIDE;
          OffsetInverts(y, vy);
          OffsetInverts(x, vx);
          forall b: nat, a: nat | b < BUFFER_SIDE && a < BUFFER_SIDE && Offset(b, vy) == y && Offset(a, vx) == x
            ensures b == y2 && a == x2
          {
            OffsetOf(b, vy);
            OffsetOf(a, vx);
          }
          DrawDot(p, sprites, y, x, y2, x2);
        }
      }
    }

    method DrawDot(p: Ppu, sprites: bool, y: nat, x: nat, y2: nat, x2: nat)
      requires Wired(p) && p.ShadesInRange()
      requires y < SCREEN_HEIGHT && x < SCREEN_WIDTH && y2 < BUFFER_SIDE && x2 < BUFFER_SIDE
      modifies pixels
      ensures forall b: nat, a: nat :: b < BUFFER_SIDE && a < BUFFER_SIDE ==> (At(pixels, b, a) ==
        if b == y2 && a == x2 then Dot(p, sprites, y, x, old(At(pixels, b, a))) else old(At(pixels, b, a)))
    {
      var val := if sprites then p.spriteBuffer[y, x] else p.bgBuffer[y, x];
      if sprites && val == TRANSPARENT {
        return;
      }
      pixels[y2 * BUFFER_SIDE + x2] := Colour(val);
    }

    /** One dot of the frame. */
    method MarkDot(d: nat, e: nat, vy: u8, vx: u8)
      requires pixels.Length == BUFFER_SIDE * BUFFER_SIDE && d < SCREEN_HEIGHT && e < SCREEN_WIDTH
      modifies pixels
      ensures forall b: nat, a: nat :: b < BUFFER_SIDE && a < BUFFER_SIDE ==> (At(pixels, b, a) ==
        if Offset(b, vy) == d && Offset(a, vx) == e then VIEW_BOX else old(At(pixels, b, a)))
    {
      OffsetInverts(d, vy);
      OffsetInverts(e, vx);
      forall b: nat, a: nat | b < BUFFER_SIDE && a < BUFFER_SIDE && Offset(b, vy) == d && Offset(a, vx) == e
        ensures b == (d + vy) % BUFFER_SIDE && a == (e + vx) % BUFFER_SIDE
      {
        OffsetOf(b, vy);
        OffsetOf(a, vx);
      }
      hide Offset;
      pixels[(d + vy) % BUFFER_SIDE * BUFFER_SIDE + (e + vx) % BUFFER_SIDE] := VIEW_BOX;
    }

    /** The frame around the viewport. */
    method DrawFrame(p: Ppu)
      requires Wired(p) && p.io as object != pixels
      modifies pixels
      ensures forall b: nat, a: nat :: b < BUFFER_SIDE && a < BUFFER_SIDE ==> (At(pixels, b, a) ==
        if OnFrame(Offset(b, p.io[SCROLL_Y]), Offset(a, p.io[SCROLL_X])) then VIEW_BOX else old(At(pixels, b, a)))
    {
      hide Offset;
      var vy, vx := p.io[SCROLL_Y], p.io[SCROLL_X];
      for x := 0 to SCREEN_WIDTH
        invariant forall b: nat, a: nat :: b < BUFFER_SIDE && a < BUFFER_SIDE ==> (At(pixels, b, a) ==
          if OnFrame(Offset(b, vy), Offset(a, vx)) && (Offset(b, vy) == 0 || Offset(b, vy) == SCREEN_HEIGHT - 1)
             && Offset(a, vx) < x
          then VIEW_BOX else old(At(pixels, b, a)))
      {
        MarkDot(0, x, vy, vx);
        MarkDot(SCREEN_HEIGHT - 1, x, vy, vx);
      }
      for y := 0 to SCREEN_HEIGHT
        invariant forall b: nat, a: nat :: b < BUFFER_SIDE && a < BUFFER_SIDE ==> (At(pixels, b, a) ==
          if OnFrame(Offset(b, vy), Offset(a, vx))
             && (Offset(b, vy) == 0 || Offset(b, vy) == SCREEN_HEIGHT - 1 || Offset(b, vy) < y)
          then VIEW_BOX else old(At(pixels, b, a)))
      {
        MarkDot(y, 0, vy, vx);
        MarkDot(y, SCREEN_WIDTH - 1, vy, vx);
      }
    }

    /** What the window shows at (b, a): the frame, else inside the viewport the sprite or
        background dot, else the map. */
    function Screen(p: Ppu, b: nat, a: nat): int
      requires p.Wired() && p.ShadesInRange() && b < BUFFER_SIDE && a < BUFFER_SIDE
      reads p.bgBuffer, p.spriteBuffer, p.vram, p.io
    {
      var d, e := Offset(b, p.io[SCROLL_Y]), Offset(a, p.io[SCROLL_X]);
      if OnFrame(d, e) then VIEW_BOX
      else if d < SCREEN_HEIGHT && e < SCREEN_WIDTH then Dot(p, true, d, e, Dot(p, false, d, e, 0))
      else Colour(BgMapPixel(p.vram[..], p.io[..], b, a))
    }

    /** The map, then the background of the viewport, then its sprites, then the frame. */
    method DrawToScreen(p: Ppu)
      requires Wired(p) && p.ShadesInRange() && p.vram as object != pixels && p.io as object != pixels
      modifies pixels
      ensures !Bit(p.io[LCDC], 7) ==> unchanged(pixels)
      ensures Bit(p.io[LCDC], 7) ==>
        forall b: nat, a: nat :: b < BUFFER_SIDE && a < BUFFER_SIDE ==> At(pixels, b, a) == Screen(p, b, a)
    {
      if !Bit(p.io[LCDC], 7) {
        return;
      }
      hide Offset, Bit, BgMapPixel, Colour;
      DrawMap(p);
      OverlayViewport(p, false);
      OverlayViewport(p, true);
      DrawFrame(p);
    }

    /** After a whole frame drawn with today's registers and nothing but background, the viewport is
        the part of the map it lies on: inside its frame the overlay changes nothing. */
    lemma {:induction false} ViewportIsCrop(p: Ppu, b: nat, a: nat)
      requires Wired(p) && p.ShadesInRange() && b < BUFFER_SIDE && a < BUFFER_SIDE
      requires p.Picture() && p.phase.VBlank? && p.Steady() && Bit(p.io[LCDC], 0)
      ensures Screen(p, b, a) == if OnFrame(Offset(b, p.io[SCROLL_Y]), Offset(a, p.io[SCROLL_X])) then VIEW_BOX
                                 else Colour(BgMapPixel(p.vram[..], p.io[..], b, a))
    {
      var d, e := Offset(b, p.io[SCROLL_Y]), Offset(a, p.io[SCROLL_X]);
      OffsetOf(b, p.io[SCROLL_Y]);
      OffsetOf(a, p.io[SCROLL_X]);
      if d < SCREEN_HEIGHT && e < SCREEN_WIDTH {
        p.SteadyPicture(d, e);
      }
    }
  }
}
