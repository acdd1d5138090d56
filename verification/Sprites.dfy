/** The sprite pass, declaratively: which sprites a line selects, and which selected sprite
    decides a pixel. Nothing here sorts, truncates or draws. */
module Sprites {
  import opened Bits
  import opened Pixels
  import opened Layers

  const NUM_SPRITES := 40
  const SPRITES_PER_LINE := 10

  type OamTable = s: seq<u8> | |s| == 160 witness seq(160, _ => 0)

  /** Everything the sprite pass of one line reads. */
  datatype Scene = Scene(oam: OamTable, v: Vram, io: IoBlock, line: nat)
  {
    function PosY(i: nat): int requires i < NUM_SPRITES { oam[4 * i] as int - 16 }
    function XByte(i: nat): u8 requires i < NUM_SPRITES { oam[4 * i + 1] }
    function PosX(i: nat): int requires i < NUM_SPRITES { XByte(i) as int - 8 }
    function Tile(i: nat): u8 requires i < NUM_SPRITES { oam[4 * i + 2] }
    function Attr(i: nat): u8 requires i < NUM_SPRITES { oam[4 * i + 3] }
    predicate Big() { Bit(io[LCDC], 2) }
    function Height(): nat { if Big() then 16 else 8 }

    predicate Visible(i: nat) {
      i < NUM_SPRITES && PosY(i) <= line < PosY(i) + Height() && -7 <= PosX(i) < SCREEN_WIDTH
    }

    /** Priority: smaller X first, then smaller OAM index. */
    predicate Before(i: nat, j: nat) {
      i < NUM_SPRITES && j < NUM_SPRITES && (XByte(i) < XByte(j) || (XByte(i) == XByte(j) && i < j))
    }

    ghost function Ahead(i: nat): set<nat> {
      set j: nat | j < NUM_SPRITES && Visible(j) && Before(j, i)
    }

    /** Among the ten visible sprites of highest priority. */
    ghost predicate Selected(i: nat) {
      Visible(i) && |Ahead(i)| < SPRITES_PER_LINE
    }

    function TileRow(i: nat): (row: nat)
      requires Visible(i)
      ensures row < Height()
    {
      if Bit(Attr(i), 6) then Height() - 1 - (line - PosY(i)) else line - PosY(i)
    }

    /** Where the two bytes of the tile row are; every read is in the lower 4 KiB of tile data. */
    function RowAddress(i: nat): (at: nat)
      requires Visible(i)
      ensures at % 2 == 0 && at + 1 <= 4095
    {
      var tile := if Big() then Tile(i) - Tile(i) % 2 else Tile(i);
      16 * tile + 2 * TileRow(i)
    }

    /** Colour number of sprite `i` at its own column `j`; 0 is transparent. */
    function Colour(i: nat, j: nat): (c: u8)
      requires Visible(i) && j < 8
      ensures c < 4
    {
      var at := RowAddress(i);
      InterleaveBits(v[at], v[at + 1], if Bit(Attr(i), 5) then j else 7 - j)
    }

    /** Sprite `i` has a coloured dot at screen column `x`. */
    predicate Opaque(i: nat, x: nat)
      requires Visible(i)
    {
      PosX(i) <= x < PosX(i) + 8 && Colour(i, x - PosX(i)) != 0
    }

    function Shade(i: nat, x: nat): (s: u8)
      requires Visible(i) && Opaque(i, x)
      ensures s < 4
    {
      MapColors(Colour(i, x - PosX(i)), if Bit(Attr(i), 4) then io[OBP1] else io[OBP0])
    }

    /** What sprite `i` does to the sprite layer at screen column `x`. */
    function FrontDot(i: nat, x: nat): Dot {
      if Visible(i) && Opaque(i, x) && !Bit(Attr(i), 7) then Paint(Shade(i, x)) else Clear
    }

    /** What sprite `i` does to a white background dot at screen column `x`. */
    function BehindDot(i: nat, x: nat): Dot {
      if Visible(i) && Opaque(i, x) && Bit(Attr(i), 7) then Paint(Shade(i, x)) else Clear
    }

    function Priority(): (nat, nat) -> bool { (i: nat, j: nat) => Before(i, j) }
    function FrontDots(x: nat): nat -> Dot { (i: nat) => FrontDot(i, x) }
    function BehindDots(x: nat): nat -> Dot { (i: nat) => BehindDot(i, x) }

    ghost function SelectedSet(): set<nat> { set i: nat | i < NUM_SPRITES && Selected(i) }

    /** The sprite layer after the pass: the selected front sprite of highest priority that has
        a coloured dot here decides it. */
    ghost predicate FrontResult(x: nat, before: u8, after: u8) {
      LeastDecides(SelectedSet(), Priority(), FrontDots(x), before, after)
    }

    /** The background layer after the pass: among selected behind sprites the one of LOWEST
        priority decides a white dot. */
    ghost predicate BehindResult(x: nat, before: u8, after: u8) {
      GreatestDecides(SelectedSet(), Priority(), BehindDots(x), before, after)
    }

    /** `l` lists the selected sprites, highest priority first. */
    ghost predicate IsSelection(l: seq<nat>) {
      Members(l) == SelectedSet() && Ordered(l, Priority())
    }

    /** Drawing the selection from its end to its start meets both results. */
    lemma {:induction false} ReverseDrawing(l: seq<nat>, x: nat, before: u8)
      requires IsSelection(l)
      ensures FrontResult(x, before, DrawOver(l, FrontDots(x), before))
      ensures BehindResult(x, before, DrawUnder(l, BehindDots(x), before))
    {
      DrawOverLeast(l, Priority(), FrontDots(x), before);
      DrawUnderGreatest(l, Priority(), BehindDots(x), before);
    }

    // The first ten of the sorted visible sprites are the selected ones.

    lemma {:induction false} PrefixCard(l: seq<nat>, n: nat)
      requires n <= |l| && forall p, q :: 0 <= p < q < |l| ==> l[p] != l[q]
      ensures |set p | 0 <= p < n :: l[p]| == n
    {
      var s := set p | 0 <= p < n :: l[p];
      if n == 0 {
        assert s == {};
      } else {
        PrefixCard(l, n - 1);
        assert s == (set p | 0 <= p < n - 1 :: l[p]) + {l[n - 1]};
      }
    }

    lemma {:induction false} TruncatedSortIsSelection(l: seq<nat>)
      requires forall i :: i in l <==> Visible(i)
      requires Ordered(l, Priority())
      ensures IsSelection(if |l| > SPRITES_PER_LINE then l[..SPRITES_PER_LINE] else l)
    {
      forall p | 0 <= p < |l| ensures Visible(l[p]) && |Ahead(l[p])| == p {
        assert l[p] in l;
        PrefixCard(l, p);
        forall j | j in Ahead(l[p]) ensures j in (set q | 0 <= q < p :: l[q]) {
          var q :| 0 <= q < |l| && l[q] == j;
        }
        forall q | 0 <= q < p ensures l[q] in Ahead(l[p]) {
          assert l[q] in l;
        }
        assert Ahead(l[p]) == set q | 0 <= q < p :: l[q];
      }
      var t := if |l| > SPRITES_PER_LINE then l[..SPRITES_PER_LINE] else l;
      forall i | Selected(i) ensures i in t {
        var p :| 0 <= p < |l| && l[p] == i;
        assert t[p] == i;
      }
    }

    // Sprites behind the background against the usual priority.

    /** A white dot gets what the behind sprite of highest priority has there exactly if that has
        the shade of the colouring one of lowest priority, or nothing colours the dot. */
    lemma {:induction false} BehindPriorityIff(x: nat, after: u8)
      requires BehindResult(x, WHITE, after)
      ensures var s, lt, f := SelectedSet(), Priority(), BehindDots(x);
        LeastDecides(s, lt, f, WHITE, after) <==>
        forall i, k :: IsLeastPainter(s, lt, f, i) && IsGreatestColour(s, lt, f, k) ==> f(i).shade == f(k).shade
    {
      UsualPriorityIff(SelectedSet(), Priority(), BehindDots(x), after);
    }
  }

  /** Two sprites behind the background, one dot apart, of shades 1 and 2, with sprites switched on. */
  function TwoBehind(): Scene {
    var oam := seq(160, i requires 0 <= i < 160 =>
      if i == 0 || i == 4 then 16 else if i == 1 then 8 else if i == 5 then 9 else if i == 6 then 1
      else if i == 3 || i == 7 then 0x80 else 0);
    var v := seq(0x2000, i requires 0 <= i < 0x2000 => if i == 0 || i == 17 then 0xFF else 0);
    var io := seq(0x80, i requires 0 <= i < 0x80 => if i == LCDC then 2 else if i == OBP0 then 0xE4 else 0);
    Scene(oam, v, io, 0)
  }

  /** What matters about that scene. */
  ghost predicate ShowsTwoBehind(s: Scene) {
    && (forall i: nat :: 2 <= i < NUM_SPRITES ==> s.PosY(i) == -16)
    && s.PosY(0) == 0 && s.XByte(0) == 8 && s.Tile(0) == 0 && s.Attr(0) == 0x80
    && s.PosY(1) == 0 && s.XByte(1) == 9 && s.Tile(1) == 1 && s.Attr(1) == 0x80
    && s.v[0] == 0xFF && s.v[1] == 0 && s.v[16] == 0 && s.v[17] == 0xFF
    && s.io[LCDC] == 2 && s.io[OBP0] == 0xE4 && s.line == 0
  }

  lemma TwoBehindShows()
    ensures ShowsTwoBehind(TwoBehind())
  {
  }

  lemma {:induction false} VisibleTwo(s: Scene)
    requires ShowsTwoBehind(s)
    ensures s.Height() == 8 && forall i: nat :: s.Visible(i) <==> i < 2
  {
    assert !Bit(2, 2) by { assert Bit(2, 2) == Bit(1, 1) == Bit(0, 0); }
    BitsUsed();
    hide Bit;
  }

  lemma {:induction false} SelectedTwo(s: Scene)
    requires ShowsTwoBehind(s)
    ensures s.SelectedSet() == {0, 1} && s.Before(0, 1) && !s.Before(1, 0)
  {
    VisibleTwo(s);
    assert s.Before(0, 1) && !s.Before(1, 0) && !s.Before(0, 0) && !s.Before(1, 1);
    hide Bit, ShowsTwoBehind;
    assert s.Ahead(0) == {} && s.Ahead(1) == {0};
    assert s.Selected(0) && s.Selected(1);
  }

  lemma {:induction false} ColoursOfTwo(s: Scene)
    requires ShowsTwoBehind(s)
    ensures s.Visible(0) && s.Visible(1) && s.Colour(0, 1) == 1 && s.Colour(1, 0) == 2
  {
    VisibleTwo(s);
    BitsUsed();
    hide Bit;
    assert s.TileRow(0) == 0 && s.TileRow(1) == 0;
    assert s.RowAddress(0) == 0 && s.RowAddress(1) == 16;
  }

  lemma {:induction false} DotsOfTwo(s: Scene)
    requires ShowsTwoBehind(s)
    ensures s.BehindDot(0, 1) == Paint(1) && s.BehindDot(1, 1) == Paint(2)
  {
    ColoursOfTwo(s);
    BitsUsed();
    hide Bit;
    assert s.Opaque(0, 1) && s.Opaque(1, 1);
    assert MapColors(1, 0xE4) == 1 && MapColors(2, 0xE4) == 2;
  }

  lemma {:induction false} BitsUsed()
    ensures forall i: nat :: i < 8 ==> !Bit(0, i) && Bit(0xFF, i)
    ensures Bit(0x80, 7) && forall i: nat :: i < 7 ==> !Bit(0x80, i)
  {
    assert forall i: nat :: 0 < i < 8 ==> Bit(0, i) == Bit(0, i - 1) && Bit(0x80, i) == Bit(0x40, i - 1);
    assert Bit(0x80, 7) == Bit(0x40, 6) == Bit(0x20, 5) == Bit(0x10, 4);
    assert Bit(0x10, 4) == Bit(8, 3) == Bit(4, 2) == Bit(2, 1) == Bit(1, 0);
  }

  /** There the sprite of lower priority decides the dot they share. */
  lemma {:induction false} BehindPriorityFails()
    ensures Bit(TwoBehind().io[LCDC], 1)
    ensures TwoBehind().BehindResult(1, WHITE, 2)
    ensures forall after :: TwoBehind().BehindResult(1, WHITE, after) ==> after == 2
    ensures !LeastDecides(TwoBehind().SelectedSet(), TwoBehind().Priority(), TwoBehind().BehindDots(1), WHITE, 2)
  {
    var s := TwoBehind();
    TwoBehindShows();
    hide TwoBehind;
    assert Bit(2, 1) by { assert Bit(2, 1) == Bit(1, 0); }
    SelectedTwo(s);
    DotsOfTwo(s);
    forall after: u8 ensures s.BehindResult(1, WHITE, after) <==> after == 2 {
      TwoPainters(s.Priority(), s.BehindDots(1), 0, 1, after);
    }
    TwoPainters(s.Priority(), s.BehindDots(1), 0, 1, 2);
  }
}
