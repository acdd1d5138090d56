/** The PPU over the memories it shares with the bus: the three drawing passes, which refine the
    readings of `Pixels` and `Sprites`, and the render loop, which refines `Frame`. */
module PpuDraw {
  import opened Bits
  import opened Layers
  import opened Pixels
  import opened Sprites
  import opened StableSort
  import opened Frame
  import opened Picture

  class Ppu {
    const io: array<u8>
    const vram: array<u8>
    const oam: array<u8>
    const bgBuffer: array2<u8>
    const spriteBuffer: array2<u8>
    var windowLine: nat
    var uiRenderBg: bool
    var uiRenderSprites: bool
    var uiRenderWndw: bool
    const intrPending: array<u8>

    // The render loop's position, and what a reader of the frame machine keeps count of.
    var phase: Phase
    ghost var cycle: nat
    ghost var vblanks: nat
    ghost var lycRequests: nat
    ghost var shown: seq<bool>
    /** What the lines held in the buffers were drawn from. */
    ghost var shots: seq<Shot>

    ghost predicate Wired() {
      && io.Length == 0x80 && vram.Length == 0x2000 && oam.Length == 160
      && bgBuffer.Length0 == BUFFER_SIDE && bgBuffer.Length1 == BUFFER_SIDE
      && spriteBuffer.Length0 == SCREEN_HEIGHT && spriteBuffer.Length1 == SCREEN_WIDTH
      && intrPending.Length == 1
      && io != vram && io != oam && vram != oam && bgBuffer != spriteBuffer
      && intrPending != io && intrPending != vram && intrPending != oam
    }

    /** Up to the first wait of the render loop: white background, no sprite dots, line 0. */
    constructor (io: array<u8>, vram: array<u8>, oam: array<u8>, intrPending: array<u8>)
      requires io.Length == 0x80 && vram.Length == 0x2000 && oam.Length == 160 && intrPending.Length == 1
      requires io != vram && io != oam && vram != oam && intrPending != io && intrPending != vram && intrPending != oam
      modifies io
      ensures Wired() && this.io == io && this.vram == vram && this.oam == oam && this.intrPending == intrPending
      ensures Initial(FrameView()) && ShadesInRange() && Picture()
    {
      this.io, this.vram, this.oam, this.intrPending := io, vram, oam, intrPending;
      bgBuffer := new u8[BUFFER_SIDE, BUFFER_SIDE]((_, _) => WHITE);
      spriteBuffer := new u8[SCREEN_HEIGHT, SCREEN_WIDTH]((_, _) => TRANSPARENT);
      uiRenderBg, uiRenderSprites, uiRenderWndw := true, true, true;
      windowLine, phase, cycle, vblanks, lycRequests, shown, shots := 0, OamSearch(0), 0, 0, 0, [], [];
      new;
      io[LY] := 0;
      SetModeEffect(FrameView(), true, false);
      SetMode(true, false);
    }

    /** The body shared by the background and window loops: tile number, table wrap-around,
        row and column inside the tile, palette. */
    method ReadTilePixel(upperMap: bool, tileMapInd: nat, yTilePixel: nat, xTilePixel: nat, ghost y: nat, ghost x: nat)
      returns (shade: u8)
      requires Wired() && y < 256 && x < 256
      requires tileMapInd == 32 * (y / 8) + x / 8 && yTilePixel == y % 8 && xTilePixel == x % 8
      ensures shade == MapPixel(vram[..], io[LCDC], io[BGP], upperMap, y, x)
    {
      hide MapPixel, InterleaveBits, MapColors, Bit;
      TileReadIsMapPixel(vram[..], io[LCDC], io[BGP], upperMap, y, x);
      var upperTable := !Bit(io[LCDC], 4);
      var tableBase := if upperTable then 0x800 else 0;
      var tileInd := vram[(if upperMap then 0x1C00 else 0x1800) + tileMapInd];
      tileInd := if upperTable then (tileInd + 128) % 256 else tileInd;
      var pixelInd := tileInd * 16 + 2 * yTilePixel;
      var res := InterleaveBits(vram[tableBase + pixelInd], vram[tableBase + pixelInd + 1], 7 - xTilePixel);
      shade := MapColors(res, io[BGP]);
    }

    ghost function SceneAt(line: nat): Scene
      requires Wired()
      reads io, vram, oam
    {
      Scene(oam[..], vram[..], io[..], line)
    }

    /** No background dot outside the visible part of `line` has changed. */
    twostate predicate BgOutsideLineKept(line: nat)
      requires Wired()
      reads bgBuffer
    {
      forall y, x :: 0 <= y < BUFFER_SIDE && 0 <= x < BUFFER_SIDE && (y != line || x >= SCREEN_WIDTH) ==>
        bgBuffer[y, x] == old(bgBuffer[y, x])
    }

    /** No sprite dot of another line has changed. */
    twostate predicate SpriteRowsKept(line: nat)
      requires Wired()
      reads spriteBuffer
    {
      forall y, x :: 0 <= y < SCREEN_HEIGHT && 0 <= x < SCREEN_WIDTH && y != line ==>
        spriteBuffer[y, x] == old(spriteBuffer[y, x])
    }

    /** The branch both background passes take when the background is switched off. */
    method ClearLine(line: nat)
      requires Wired() && line < SCREEN_HEIGHT
      modifies bgBuffer
      ensures forall i: nat :: i < SCREEN_WIDTH ==> bgBuffer[line, i] == WHITE
      ensures BgOutsideLineKept(line)
    {
      for i := 0 to SCREEN_WIDTH
        invariant forall k: nat :: k < i ==> bgBuffer[line, k] == WHITE
        invariant BgOutsideLineKept(line)
      {
        bgBuffer[line, i] := 0;
      }
    }

    /** Tile and position inside the tile, from the scroll registers. */
    method ReadBgPixel(line: nat, i: nat, yTilePixel: nat) returns (shade: u8)
      requires Wired() && yTilePixel == (io[SCROLL_Y] + line) % 8
      ensures shade == BgMapPixel(vram[..], io[..], (line + io[SCROLL_Y]) % 256, (io[SCROLL_X] + i) % 256)
    {
      hide MapPixel;
      WrapThenTile(line + io[SCROLL_Y]);
      WrapThenTile(io[SCROLL_X] + i);
      var bgTileInd := 32 * ((line + io[SCROLL_Y]) % 256 / 8) + (io[SCROLL_X] + i) % 256 / 8;
      shade := ReadTilePixel(Bit(io[LCDC], 3), bgTileInd, yTilePixel, (io[SCROLL_X] + i) % 8,
                             (line + io[SCROLL_Y]) % 256, (io[SCROLL_X] + i) % 256);
    }

    method DrawBgToLine(line: nat)
      requires Wired() && line < SCREEN_HEIGHT
      modifies bgBuffer
      ensures forall i: nat :: i < SCREEN_WIDTH ==>
        bgBuffer[line, i] == BgLinePixel(vram[..], io[..], uiRenderBg, line, i)
      ensures BgOutsideLineKept(line)
    {
      hide BgMapPixel;
      ghost var v: Vram, r: IoBlock := vram[..], io[..];
      var yTilePixel := (io[SCROLL_Y] + line) % 8;
      if Bit(io[LCDC], 0) && uiRenderBg {
        for i := 0 to SCREEN_WIDTH
          invariant vram[..] == v && io[..] == r
          invariant forall k: nat :: k < i ==> bgBuffer[line, k] == BgLinePixel(v, r, uiRenderBg, line, k)
          invariant BgOutsideLineKept(line)
        {
          var shade := ReadBgPixel(line, i, yTilePixel);
          bgBuffer[line, i] := shade;
        }
      } else {
        ClearLine(line);
      }
    }

    method DrawWndwToLine(line: nat)
      requires Wired() && line < SCREEN_HEIGHT && windowLine < 256
      modifies bgBuffer, this`windowLine
      ensures windowLine == old(windowLine) + B2N(WindowShown(io[..], line))
      ensures forall i: nat :: i < SCREEN_WIDTH ==> (bgBuffer[line, i] ==
        if WindowShown(io[..], line)
        then WindowLinePixel(vram[..], io[..], uiRenderWndw, old(windowLine), i, old(bgBuffer[line, i]))
        else old(bgBuffer[line, i]))
      ensures BgOutsideLineKept(line)
    {
      var xPos := io[WINDOW_X] as int - 7;
      var yPos := io[WINDOW_Y];
      if !Bit(io[LCDC], 5) || yPos >= SCREEN_HEIGHT || xPos >= SCREEN_WIDTH || line < yPos {
        return;
      }
      ghost var v: Vram, r: IoBlock := vram[..], io[..];
      var yTilePixel := windowLine % 8;
      if Bit(io[LCDC], 0) && uiRenderWndw {
        for i := 0 to SCREEN_WIDTH
          invariant windowLine == old(windowLine) && vram[..] == v && io[..] == r
          invariant forall k: nat :: k < i ==>
            bgBuffer[line, k] == WindowLinePixel(v, r, uiRenderWndw, windowLine, k, old(bgBuffer[line, k]))
          invariant forall k: nat :: i <= k < SCREEN_WIDTH ==> bgBuffer[line, k] == old(bgBuffer[line, k])
          invariant BgOutsideLineKept(line)
        {
          if i - xPos >= 0 {
            var wndwTileInd := 32 * (windowLine / 8) + (i - xPos) / 8;
            var shade := ReadTilePixel(Bit(io[LCDC], 6), wndwTileInd, yTilePixel, (i - xPos) % 8, windowLine, i - xPos);
            bgBuffer[line, i] := shade;
          }
        }
      } else {
        ClearLine(line);
      }
      windowLine := windowLine + 1;
    }

    /** Colour number of sprite `i` at its own column `j`, from its OAM entry. */
    method SpriteColour(line: nat, i: nat, j: nat) returns (res: u8)
      requires Wired() && SceneAt(line).Visible(i) && j < 8
      ensures res == SceneAt(line).Colour(i, j)
    {
      var posY := oam[i * 4] as int - 16;
      var spriteTileInd := oam[i * 4 + 2];
      var spriteFlags := oam[i * 4 + 3];
      var isBigSprite := Bit(io[LCDC], 2);
      var xFlip := Bit(spriteFlags, 5);
      var yFlip := Bit(spriteFlags, 6);
      if isBigSprite {
        spriteTileInd := spriteTileInd - spriteTileInd % 2;
      }
      var yTilePixel := if yFlip then (if isBigSprite then 15 else 7) - (line - posY) else line - posY;
      var pixelInd := spriteTileInd * 16 + yTilePixel * 2;
      assert yTilePixel == SceneAt(line).TileRow(i);
      res := InterleaveBits(vram[pixelInd], vram[pixelInd + 1], if xFlip then j else 7 - j);
    }

    /** One column of one sprite. */
    method DrawSpriteDot(line: nat, i: nat, j: nat)
      requires Wired() && line < SCREEN_HEIGHT && j < 8
      requires SceneAt(line).Visible(i)
      modifies bgBuffer, spriteBuffer
      ensures var x := SceneAt(line).PosX(i) + j;
        0 <= x < SCREEN_WIDTH ==> (
          && spriteBuffer[line, x] == DrawOver([i], SceneAt(line).FrontDots(x), old(spriteBuffer[line, x]))
          && bgBuffer[line, x] == DrawUnder([i], SceneAt(line).BehindDots(x), old(bgBuffer[line, x])))
      ensures forall x :: 0 <= x < SCREEN_WIDTH && x != SceneAt(line).PosX(i) + j ==>
        spriteBuffer[line, x] == old(spriteBuffer[line, x]) && bgBuffer[line, x] == old(bgBuffer[line, x])
      ensures SpriteRowsKept(line) && BgOutsideLineKept(line)
    {
      var spriteFlags := oam[i * 4 + 3];
      var xDraw := oam[i * 4 + 1] as int - 8 + j;
      if xDraw < 0 || xDraw >= SCREEN_WIDTH {
        return;
      }
      var res := SpriteColour(line, i, j);
      if res == 0 {
        return;
      }
      var palette := Bit(spriteFlags, 4);
      var objPrio := Bit(spriteFlags, 7);
      var shade := MapColors(res, if palette then io[OBP1] else io[OBP0]);
      assert SceneAt(line).Opaque(i, xDraw) && shade == SceneAt(line).Shade(i, xDraw);
      if objPrio {
        if bgBuffer[line, xDraw] == 0 {
          bgBuffer[line, xDraw] := shade;
        }
      } else {
        spriteBuffer[line, xDraw] := shade;
      }
    }

    /** A sprite leaves the columns outside its eight alone. */
    lemma DotsOutside(line: nat, i: nat, x: nat, before: u8)
      requires Wired() && SceneAt(line).Visible(i)
      requires !(SceneAt(line).PosX(i) <= x < SceneAt(line).PosX(i) + 8)
      ensures DrawOver([i], SceneAt(line).FrontDots(x), before) == before
      ensures DrawUnder([i], SceneAt(line).BehindDots(x), before) == before
    {
    }

    method DrawSprite(line: nat, i: nat)
      requires Wired() && line < SCREEN_HEIGHT
      requires SceneAt(line).Visible(i)
      modifies bgBuffer, spriteBuffer
      ensures forall x: nat :: x < SCREEN_WIDTH ==>
        spriteBuffer[line, x] == DrawOver([i], SceneAt(line).FrontDots(x), old(spriteBuffer[line, x]))
      ensures forall x: nat :: x < SCREEN_WIDTH ==>
        bgBuffer[line, x] == DrawUnder([i], SceneAt(line).BehindDots(x), old(bgBuffer[line, x]))
      ensures SpriteRowsKept(line) && BgOutsideLineKept(line)
    {
      ghost var sc := SceneAt(line);
      ghost var posX := sc.PosX(i);
      forall x: nat | x < SCREEN_WIDTH && !(posX <= x < posX + 8)
        ensures DrawOver([i], sc.FrontDots(x), spriteBuffer[line, x]) == spriteBuffer[line, x]
        ensures DrawUnder([i], sc.BehindDots(x), bgBuffer[line, x]) == bgBuffer[line, x]
      {
        DotsOutside(line, i, x, spriteBuffer[line, x]);
        DotsOutside(line, i, x, bgBuffer[line, x]);
      }
      for j := 0 to 8
        invariant SceneAt(line) == sc
        invariant forall x: nat :: x < SCREEN_WIDTH ==> (spriteBuffer[line, x]
          == if posX <= x < posX + j then DrawOver([i], sc.FrontDots(x), old(spriteBuffer[line, x]))
            else old(spriteBuffer[line, x]))
        invariant forall x: nat :: x < SCREEN_WIDTH ==> (bgBuffer[line, x]
          == if posX <= x < posX + j then DrawUnder([i], sc.BehindDots(x), old(bgBuffer[line, x]))
            else old(bgBuffer[line, x]))
        invariant SpriteRowsKept(line) && BgOutsideLineKept(line)
      {
        DrawSpriteDot(line, i, j);
      }
    }

    method IsVisible(line: nat, i: nat) returns (visible: bool)
      requires Wired() && i < NUM_SPRITES
      ensures visible == SceneAt(line).Visible(i)
    {
      var posY := oam[i * 4] as int - 16;
      var posX := oam[i * 4 + 1] as int - 8;
      var spriteHeight := if Bit(io[LCDC], 2) then 16 else 8;
      visible := !((posY > line || posY + spriteHeight <= line) || (posX < -7 || posX >= SCREEN_WIDTH));
    }

    /** The list holds the visible sprites with their X. */
    static ghost predicate AreVisible(sc: Scene, r: seq<Entry>) {
      && (forall e :: e in r ==> sc.Visible(e.id) && e.key == sc.XByte(e.id))
      && (forall j: nat :: sc.Visible(j) ==> Entry(j, sc.XByte(j)) in r)
    }

    /** The filter over the OAM. */
    method VisibleSprites(line: nat) returns (r: seq<Entry>)
      requires Wired() && line < SCREEN_HEIGHT
      ensures AscendingIds(r) && AreVisible(SceneAt(line), r)
    {
      ghost var sc := SceneAt(line);
      r := [];
      for i := 0 to NUM_SPRITES
        invariant AscendingIds(r)
        invariant forall e :: e in r ==> e.id < i && sc.Visible(e.id) && e.key == sc.XByte(e.id)
        invariant forall j: nat :: j < i && sc.Visible(j) ==> Entry(j, sc.XByte(j)) in r
      {
        var xPos := oam[i * 4 + 1];
        var visible := IsVisible(line, i);
        if visible {
          r := r + [Entry(i, xPos)];
        }
      }
    }

    /** Filter the OAM, sort stably by X, keep at most ten. */
    method SelectSprites(line: nat) returns (l: seq<nat>)
      requires Wired() && line < SCREEN_HEIGHT
      ensures SceneAt(line).IsSelection(l)
      ensures |l| <= 10 && (|l| < 10 ==> forall i: nat :: SceneAt(line).Visible(i) ==> i in l)
    {
      ghost var sc := SceneAt(line);
      var sortedOam := VisibleSprites(line);
      var r := Sort(sortedOam);
      SameMembers(sortedOam, r);
      assert AreVisible(sc, r);
      StableOrder(sortedOam, r);
      ghost var all := seq(|r|, p requires 0 <= p < |r| => r[p].id);
      SortedVisible(sc, r, all);
      sc.TruncatedSortIsSelection(all);
      if |r| > SPRITES_PER_LINE {
        r := r[..SPRITES_PER_LINE];
      }
      l := seq(|r|, p requires 0 <= p < |r| => r[p].id);
      assert l == if |all| > SPRITES_PER_LINE then all[..SPRITES_PER_LINE] else all;
    }

    static lemma SortedVisible(sc: Scene, r: seq<Entry>, l: seq<nat>)
      requires |l| == |r| && forall p :: 0 <= p < |r| ==> l[p] == r[p].id
      requires AreVisible(sc, r)
      requires forall p, q :: 0 <= p < q < |r| ==> r[p].key < r[q].key || (r[p].key == r[q].key && r[p].id < r[q].id)
      ensures forall i :: i in l <==> sc.Visible(i)
      ensures Ordered(l, sc.Priority())
    {
      forall i ensures i in l <==> sc.Visible(i) {
        if i in l {
          var p :| 0 <= p < |l| && l[p] == i;
          assert r[p] in r;
        }
        if sc.Visible(i) {
          var p :| 0 <= p < |r| && r[p] == Entry(i, sc.XByte(i));
          assert l[p] == i;
        }
      }
      forall p, q | 0 <= p < q < |l| ensures sc.Before(l[p], l[q]) {
        assert r[p] in r && r[q] in r;
      }
    }

    predicate SpritesOn()
      requires Wired()
      reads this, io
    {
      Bit(io[LCDC], 1) && uiRenderSprites
    }

    method DrawSpriteToLine(line: nat)
      requires Wired() && line < SCREEN_HEIGHT
      modifies bgBuffer, spriteBuffer
      ensures SpritesOn() ==> forall x: nat :: x < SCREEN_WIDTH ==>
        SceneAt(line).FrontResult(x, old(spriteBuffer[line, x]), spriteBuffer[line, x])
      ensures SpritesOn() ==> forall x: nat :: x < SCREEN_WIDTH ==>
        SceneAt(line).BehindResult(x, old(bgBuffer[line, x]), bgBuffer[line, x])
      ensures !SpritesOn() ==> forall x: nat :: x < SCREEN_WIDTH ==>
        spriteBuffer[line, x] == old(spriteBuffer[line, x]) && bgBuffer[line, x] == old(bgBuffer[line, x])
      ensures SpriteRowsKept(line) && BgOutsideLineKept(line)
    {
      if !Bit(io[LCDC], 1) {
        return;
      }
      if !uiRenderSprites {
        return;
      }
      ghost var sc := SceneAt(line);
      var l := SelectSprites(line);
      var k := |l|;
      while k > 0
        invariant 0 <= k <= |l| && SceneAt(line) == sc
        invariant forall x: nat :: x < SCREEN_WIDTH ==>
          spriteBuffer[line, x] == DrawOver(l[k..], sc.FrontDots(x), old(spriteBuffer[line, x]))
        invariant forall x: nat :: x < SCREEN_WIDTH ==>
          bgBuffer[line, x] == DrawUnder(l[k..], sc.BehindDots(x), old(bgBuffer[line, x]))
        invariant SpriteRowsKept(line) && BgOutsideLineKept(line)
      {
        k := k - 1;
        assert l[k] in Members(l);
        forall x: nat | x < SCREEN_WIDTH
          ensures DrawOver(l[k..], sc.FrontDots(x), old(spriteBuffer[line, x])) ==
            DrawOver([l[k]], sc.FrontDots(x), spriteBuffer[line, x])
          ensures DrawUnder(l[k..], sc.BehindDots(x), old(bgBuffer[line, x])) ==
            DrawUnder([l[k]], sc.BehindDots(x), bgBuffer[line, x])
        {
          DrawHeadLast(l, k, sc.FrontDots(x), old(spriteBuffer[line, x]));
          DrawHeadLast(l, k, sc.BehindDots(x), old(bgBuffer[line, x]));
        }
        DrawSprite(line, l[k]);
      }
      assert l[0..] == l;
      forall x: nat | x < SCREEN_WIDTH
        ensures sc.FrontResult(x, old(spriteBuffer[line, x]), spriteBuffer[line, x])
        ensures sc.BehindResult(x, old(bgBuffer[line, x]), bgBuffer[line, x])
      {
        sc.ReverseDrawing(l, x, old(spriteBuffer[line, x]));
        sc.ReverseDrawing(l, x, old(bgBuffer[line, x]));
      }
    }

    /** Every dot is one of the four shades, or a transparent sprite dot. */
    ghost predicate ShadesInRange()
      requires Wired()
      reads bgBuffer, spriteBuffer
    {
      && (forall y, x :: 0 <= y < BUFFER_SIDE && 0 <= x < BUFFER_SIDE ==> bgBuffer[y, x] < 4)
      && (forall y, x :: 0 <= y < SCREEN_HEIGHT && 0 <= x < SCREEN_WIDTH ==> spriteBuffer[y, x] <= TRANSPARENT)
    }

    ghost function TakeShot(line: nat): (s: Shot)
      requires Wired() && line < SCREEN_HEIGHT && windowLine < 256
      reads this, io, vram, oam, spriteBuffer
      ensures |s.spritesBefore| == SCREEN_WIDTH
    {
      Shot(SceneAt(line), uiRenderBg, uiRenderWndw, SpritesOn(), windowLine, SpriteRow(line, SCREEN_WIDTH))
    }

    ghost function SpriteRow(y: nat, n: nat): (r: seq<u8>)
      requires Wired() && y < SCREEN_HEIGHT && n <= SCREEN_WIDTH
      reads spriteBuffer
      ensures |r| == n && forall x :: 0 <= x < n ==> r[x] == spriteBuffer[y, x]
    {
      if n == 0 then [] else SpriteRow(y, n - 1) + [spriteBuffer[y, n - 1]]
    }

    /** Row `line` of both layers is what `s` must show. */
    ghost predicate RowShows(s: Shot, line: nat)
      requires Wired() && line < SCREEN_HEIGHT
      reads bgBuffer, spriteBuffer
    {
      |s.spritesBefore| == SCREEN_WIDTH && s.sc.line == line
      && forall x: nat :: x < SCREEN_WIDTH ==> s.Shows(x, bgBuffer[line, x], spriteBuffer[line, x])
    }

    /** The three passes of one line. */
    method DrawLine(line: nat)
      requires Wired() && line < SCREEN_HEIGHT && windowLine < 256
      modifies bgBuffer, spriteBuffer, this`windowLine
      ensures windowLine == old(windowLine) + B2N(WindowShown(io[..], line))
      ensures RowShows(old(TakeShot(line)), line)
      ensures SpriteRowsKept(line) && BgOutsideLineKept(line)
      ensures old(ShadesInRange()) ==> ShadesInRange()
    {
      hide WindowShown, BgLinePixel, WindowLinePixel, Scene.FrontResult, Scene.BehindResult;
      ghost var s := TakeShot(line);
      DrawBgToLine(line);
      DrawWndwToLine(line);
      DrawSpriteToLine(line);
      forall x: nat | x < SCREEN_WIDTH
        ensures bgBuffer[line, x] < 4
        ensures old(spriteBuffer[line, x]) <= TRANSPARENT ==> spriteBuffer[line, x] <= TRANSPARENT
      {
        s.ShadesInRange(x, bgBuffer[line, x], spriteBuffer[line, x]);
      }
    }

    /** The first `n` lines of the frame show what they were drawn from. */
    ghost predicate LinesShow(n: nat)
      requires Wired()
      reads this`shots, bgBuffer, spriteBuffer
    {
      |shots| == n <= SCREEN_HEIGHT && forall y :: 0 <= y < n ==> RowShows(shots[y], y)
    }

    lemma NothingToShow()
      requires Wired() && shots == []
      ensures LinesShow(0)
    {
    }

    /** All lines drawn in this frame do; during V-Blank that is the whole picture. */
    ghost predicate Picture()
      requires Wired()
      reads this, bgBuffer, spriteBuffer
    {
      LinesShow(if phase.VBlank? then SCREEN_HEIGHT else LinesDrawn(phase))
    }

    /** DrawLine, with its sources on record. */
    method DrawShot(line: nat)
      requires Wired() && line < SCREEN_HEIGHT && windowLine < 256
      modifies bgBuffer, spriteBuffer, this`windowLine, this`shots
      ensures windowLine == old(windowLine) + B2N(WindowShown(io[..], line))
      ensures shots == old(shots) + [old(TakeShot(line))]
      ensures old(LinesShow(line)) ==> LinesShow(line + 1)
    {
      hide TakeShot, Shot.Shows, WindowShown;
      ghost var s := TakeShot(line);
      DrawLine(line);
      shots := shots + [s];
    }

    ghost function FrameView(): State
      requires Wired()
      reads this, io, intrPending
    {
      State(phase, cycle, io[..], intrPending[0], windowLine, vblanks, lycRequests, shown)
    }

    method CheckLycInterrupt()
      requires Wired()
      modifies io, intrPending, this`lycRequests
      ensures FrameView() == CheckLyc(old(FrameView()))
    {
      var lyCoincInterrupt := Bit(io[STAT], 6);
      var lyCoinc := io[LY_COMP] == io[LY];
      if lyCoincInterrupt && lyCoinc {
        intrPending[0] := SetBit8(intrPending[0], true, 1);
        lycRequests := lycRequests + 1;
      }
      io[STAT] := SetBit8(io[STAT], lyCoinc, 2);
    }

    method SetMode(bit1: bool, bit0: bool)
      requires Wired()
      modifies io
      ensures FrameView() == Frame.SetMode(old(FrameView()), bit1, bit0)
    {
      io[STAT] := SetBit8(io[STAT], bit0, 0);
      io[STAT] := SetBit8(io[STAT], bit1, 1);
    }

    method SetLy(ly: u8)
      requires Wired()
      modifies io
      ensures FrameView() == Frame.SetLy(old(FrameView()), ly)
    {
      io[LY] := ly;
    }

    /** End of the transfer wait: mode 0, draw, count the line, interrupts. The line is drawn from
        the memories of that moment, with the mode bits of STAT already cleared. */
    method StartHBlank(i: nat)
      requires Wired() && phase == Transfer(i) && i < SCREEN_HEIGHT && windowLine < 256
      modifies this`phase, this`cycle, this`shown, this`shots, this`windowLine, this`lycRequests, io, intrPending,
        bgBuffer, spriteBuffer
      ensures FrameView() == Resume(old(FrameView()))
      ensures shots == old(shots)
        + [old(TakeShot(i)).(sc := old(SceneAt(i)).(io := Frame.SetMode(old(FrameView()), false, false).io))]
      ensures old(Picture()) ==> Picture()
    {
      hide Bit, SetBit, SetBit8, WindowShown, LinesShow, Frame.EndTransfer;
      cycle := cycle + Duration(phase);
      SetMode(false, false);
      shown := shown + [WindowShown(io[..], i)];
      DrawShot(i);
      EndTransfer(i);
    }

    /** From the drawn line to the H-Blank wait. */
    method EndTransfer(i: nat)
      requires Wired()
      modifies this`phase, this`lycRequests, io, intrPending
      ensures FrameView() == Frame.EndTransfer(old(FrameView()), i) && phase == HBlank(i)
    {
      hide Bit, SetBit, SetBit8, CheckLyc;
      SetLy(Inc8(io[LY]));
      if Bit(io[STAT], 3) {
        intrPending[0] := SetBit8(intrPending[0], true, 1);
      }
      CheckLycInterrupt();
      phase := HBlank(i);
    }

    /** End of an H-Blank wait: the next line, or V-Blank. */
    method EndLine(i: nat)
      requires Wired() && phase == HBlank(i) && i < SCREEN_HEIGHT
      modifies this`phase, this`cycle, this`vblanks, this`shown, this`windowLine, io, intrPending
      ensures FrameView() == Resume(old(FrameView())) && (old(Picture()) ==> Picture())
    {
      hide Bit, SetBit, SetBit8, LinesShow;
      cycle := cycle + Duration(phase);
      if i + 1 < SCREEN_HEIGHT {
        SetMode(true, false);
        phase := OamSearch(i + 1);
      } else {
        windowLine := 0;
        shown := [];
        io[STAT] := SetBit8(io[STAT], true, 0);
        intrPending[0] := SetBit8(intrPending[0], true, 0);
        vblanks := vblanks + 1;
        phase := VBlank(0);
      }
    }

    /** End of a V-Blank line's wait. */
    method EndVBlankLine(k: nat)
      requires Wired() && phase == VBlank(k)
      modifies this`phase, this`cycle, this`shots, this`lycRequests, io, intrPending
      ensures FrameView() == Resume(old(FrameView())) && (old(Picture()) ==> Picture())
    {
      hide Bit, SetBit, SetBit8, CheckLyc, LinesShow;
      cycle := cycle + Duration(phase);
      SetLy(Inc8(io[LY]));
      CheckLycInterrupt();
      if k + 1 < VBLANK_LINES {
        phase := VBlank(k + 1);
      } else {
        SetLy(0);
        CheckLycInterrupt();
        SetMode(true, false);
        phase := OamSearch(0);
        shots := [];
        NothingToShow();
      }
    }

    /** What the render loop does from the end of one wait to the next; the lines drawn so far, at
        V-Blank all 144, keep showing what they were drawn from. */
    method ResumeRenderLoop()
      requires Wired() && Core(FrameView()) && Picture()
      modifies this`phase, this`cycle, this`vblanks, this`lycRequests, this`shown, this`shots, this`windowLine, io,
        intrPending, bgBuffer, spriteBuffer
      ensures FrameView() == Resume(old(FrameView())) && Core(FrameView()) && Picture()
      ensures old(Inv(FrameView())) ==> Inv(FrameView())
    {
      StepKeepsCore(FrameView(), Wake);
      CountBound(shown);
      hide Resume, SetBit8, LinesShow;
      match phase
      case OamSearch(i) => StartTransfer(i);
      case Transfer(i) => StartHBlank(i);
      case HBlank(i) => EndLine(i);
      case VBlank(k) => EndVBlankLine(k);
    }

    /** End of an OAM search. */
    method StartTransfer(i: nat)
      requires Wired() && phase == OamSearch(i)
      modifies this`phase, this`cycle, io
      ensures FrameView() == Resume(old(FrameView())) && (old(Picture()) ==> Picture())
    {
      hide Bit, SetBit, SetBit8;
      cycle := cycle + Duration(phase);
      io[STAT] := SetBit8(io[STAT], true, 0);
      phase := Transfer(i);
    }

    /** Every line of the frame was drawn from today's video RAM and scroll registers and held
        nothing but background. */
    ghost predicate Steady()
      requires Wired()
      reads this, io, vram
    {
      forall y :: 0 <= y < |shots| ==>
        && shots[y].BackgroundOnly() && shots[y].sc.v == vram[..] && SameView(shots[y].sc.io, io[..])
        && forall x :: 0 <= x < |shots[y].spritesBefore| ==> shots[y].spritesBefore[x] == TRANSPARENT
    }

    /** After such a frame the buffers hold the crop of the whole map, without sprites. */
    lemma {:induction false} SteadyPicture(d: nat, e: nat)
      requires Wired() && Picture() && phase.VBlank? && Steady() && d < SCREEN_HEIGHT && e < SCREEN_WIDTH
      ensures bgBuffer[d, e] == BgLinePixel(vram[..], io[..], true, d, e) && spriteBuffer[d, e] == TRANSPARENT
    {
      var s := shots[d];
      assert RowShows(s, d);
      s.ShowsBackground(e, bgBuffer[d, e], spriteBuffer[d, e]);
      SameViewSameLine(vram[..], s.sc.io, io[..], d, e);
    }
  }
}
