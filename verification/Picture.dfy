/** What a drawn line must show: background, window and sprites from the registers and memories as
    they were when the line was drawn. */
module Picture {
  import opened Bits
  import opened Layers
  import opened Pixels
  import opened Sprites

  /** Everything one line is drawn from. */
  datatype Shot = Shot(sc: Scene, bgOn: bool, windowOn: bool, spritesOn: bool, windowLine: u8, spritesBefore: seq<u8>)
  {
    function Under(x: nat): u8
      requires x < SCREEN_WIDTH
    {
      LineBackground(sc.v, sc.io, bgOn, windowOn, windowLine, sc.line, x)
    }

    /** The dots of column `x` in the background and in the sprite layer. */
    ghost predicate Shows(x: nat, bg: u8, sprite: u8)
      requires x < SCREEN_WIDTH && |spritesBefore| == SCREEN_WIDTH
    {
      if spritesOn then sc.BehindResult(x, Under(x), bg) && sc.FrontResult(x, spritesBefore[x], sprite)
      else bg == Under(x) && sprite == spritesBefore[x]
    }

    lemma {:induction false} ShadesInRange(x: nat, bg: u8, sprite: u8)
      requires x < SCREEN_WIDTH && |spritesBefore| == SCREEN_WIDTH && Shows(x, bg, sprite)
      ensures bg < 4 && (spritesBefore[x] <= TRANSPARENT ==> sprite <= TRANSPARENT)
    {
      if bg != Under(x) {
        var k :| k in sc.SelectedSet() && Colours(sc.BehindDots(x), k) && bg == sc.BehindDots(x)(k).shade;
        assert sc.BehindDot(k, x).Paint?;
      }
      if sprite != spritesBefore[x] {
        var k :| k in sc.SelectedSet() && sc.FrontDots(x)(k).Paint? && sprite == sc.FrontDots(x)(k).shade;
        assert sc.FrontDot(k, x).Paint?;
      }
    }

    /** Nothing but background is on this line. */
    ghost predicate BackgroundOnly() {
      bgOn && !WindowShown(sc.io, sc.line) && (spritesOn ==> forall i: nat :: !sc.Visible(i))
    }

    lemma {:induction false} ShowsBackground(x: nat, bg: u8, sprite: u8)
      requires x < SCREEN_WIDTH && |spritesBefore| == SCREEN_WIDTH && BackgroundOnly() && Shows(x, bg, sprite)
      ensures bg == BgLinePixel(sc.v, sc.io, true, sc.line, x) && sprite == spritesBefore[x]
    {
      if spritesOn {
        assert sc.SelectedSet() == {};
      }
    }
  }

  /** The registers that the background depends on. */
  predicate SameView(a: IoBlock, b: IoBlock) {
    a[LCDC] == b[LCDC] && a[SCROLL_Y] == b[SCROLL_Y] && a[SCROLL_X] == b[SCROLL_X] && a[BGP] == b[BGP]
  }

  lemma SameViewSameLine(v: Vram, a: IoBlock, b: IoBlock, line: nat, x: nat)
    requires SameView(a, b)
    ensures BgLinePixel(v, a, true, line, x) == BgLinePixel(v, b, true, line, x)
  {
  }
}
