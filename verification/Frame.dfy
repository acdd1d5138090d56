/** The timed state machine of `Ppu::RenderLoop`, from one wait to the next, together with what
    the other threads may do to the registers in between. */
module Frame {
  import opened Wrappers
  import opened Bits
  import opened Pixels
  import opened IoBlockWrites

  const FRAME_CYCLES := 70224
  const VBLANK_LINES := 10

  /** Where the render loop waits. */
  datatype Phase = OamSearch(line: nat) | Transfer(line: nat) | HBlank(line: nat) | VBlank(k: nat)

  ghost predicate ValidPhase(p: Phase) {
    match p
    case VBlank(k) => k < VBLANK_LINES
    case _ => p.line < SCREEN_HEIGHT
  }

  function Duration(p: Phase): nat {
    match p
    case OamSearch(_) => 80
    case Transfer(_) => 168
    case HBlank(_) => 208
    case VBlank(_) => 456
  }

  /** `cycle` is the time the current wait began, in clock cycles since the first line; `vblanks`
      and `lycRequests` count V-Blank and coincidence requests; `shown` records for the lines drawn
      in this frame whether the window was shown. */
  datatype State = State(phase: Phase, cycle: nat, io: IoBlock, intr: u8, windowLine: nat,
                         vblanks: nat, lycRequests: nat, shown: seq<bool>)

  /** Raise the coincidence interrupt if enabled, and set or clear STAT bit 2. */
  function CheckLyc(s: State): State {
    var coincidence := s.io[LY_COMP] == s.io[LY];
    var request := Bit(s.io[STAT], 6) && coincidence;
    s.(intr := if request then SetBit8(s.intr, true, 1) else s.intr,
       lycRequests := s.lycRequests + B2N(request),
       io := s.io[STAT := SetBit8(s.io[STAT], coincidence, 2)])
  }

  function SetMode(s: State, bit1: bool, bit0: bool): State {
    s.(io := s.io[STAT := SetBit8(SetBit8(s.io[STAT], bit0, 0), bit1, 1)])
  }

  function SetLy(s: State, ly: u8): State { s.(io := s.io[LY := ly]) }

  function EnterLine(s: State, line: nat): State {
    SetMode(s, true, false).(phase := OamSearch(line))
  }

  /** Line `i` is drawn; that moves the window counter if it shows the window. */
  function CountLine(s: State, i: nat): State {
    var seen := WindowShown(s.io, i);
    s.(windowLine := s.windowLine + B2N(seen), shown := s.shown + [seen])
  }

  /** From the drawn line to the H-Blank wait. */
  function EndTransfer(s: State, i: nat): State {
    var s := SetLy(s, Inc8(s.io[LY]));
    var s := if Bit(s.io[STAT], 3) then s.(intr := SetBit8(s.intr, true, 1)) else s;
    CheckLyc(s).(phase := HBlank(i))
  }

  /** What the loop does when its current wait ends, up to the next wait. */
  function Resume(s: State): State {
    var s := s.(cycle := s.cycle + Duration(s.phase));
    match s.phase
    case OamSearch(i) =>
      s.(io := s.io[STAT := SetBit8(s.io[STAT], true, 0)], phase := Transfer(i))
    case Transfer(i) =>
      EndTransfer(CountLine(SetMode(s, false, false), i), i)
    case HBlank(i) =>
      if i + 1 < SCREEN_HEIGHT then EnterLine(s, i + 1)
      else
        s.(windowLine := 0, shown := [], vblanks := s.vblanks + 1, intr := SetBit8(s.intr, true, 0),
           io := s.io[STAT := SetBit8(s.io[STAT], true, 0)], phase := VBlank(0))
    case VBlank(k) =>
      var s := CheckLyc(SetLy(s, Inc8(s.io[LY])));
      if k + 1 < VBLANK_LINES then s.(phase := VBlank(k + 1))
      else EnterLine(CheckLyc(SetLy(s, 0)), 0)
  }

  /** A run interleaves the loop with bus writes to the IO block, direct stores of the sound
      thread to its registers, and changes of the interrupt flags. */
  datatype Event = Wake | BusWrite(adr: nat, v: u8) | SoundStore(adr: nat, v: u8) | SetIntr(intr: u8)

  predicate Possible(e: Event) {
    match e
    case BusWrite(adr, _) => adr < MAPPED
    case SoundStore(adr, _) => adr < 0x20
    case _ => true
  }

  /** Any bus write except to LY itself. */
  predicate Allowed(e: Event) { Possible(e) && !(e.BusWrite? && e.adr == LY) }

  function Step(s: State, e: Event): State
    requires Possible(e)
  {
    match e
    case Wake => Resume(s)
    case BusWrite(adr, v) => s.(io := WriteReg(s.io, adr, v))
    case SoundStore(adr, v) => s.(io := s.io[adr := v])
    case SetIntr(i) => s.(intr := i)
  }

  function Run(s: State, es: seq<Event>): State
    requires forall e :: e in es ==> Possible(e)
    decreases |es|
  {
    if es == [] then s else Step(Run(s, es[..|es| - 1]), es[|es| - 1])
  }

  // Closed forms in the cycle count alone.

  function LineStart(p: Phase): nat {
    match p
    case OamSearch(i) => 456 * i
    case Transfer(i) => 456 * i + 80
    case HBlank(i) => 456 * i + 248
    case VBlank(k) => 456 * (SCREEN_HEIGHT + k)
  }

  /** LY at cycle `t`. It moves on at the start of H-Blank, 208 cycles before the line ends;
      during V-Blank it moves on with the line. */
  function LyAt(t: nat): nat {
    var c := t % FRAME_CYCLES;
    if c < 456 * SCREEN_HEIGHT then (c + 208) / 456 else c / 456
  }

  /** STAT bits 0-1 at cycle `t`. */
  function ModeAt(t: nat): nat {
    var c := t % FRAME_CYCLES;
    if c >= 456 * SCREEN_HEIGHT then 1
    else if c % 456 < 80 then 2 else if c % 456 < 248 then 3 else 0
  }

  /** V-Blank requests up to cycle `t`. */
  function VBlanksAt(t: nat): nat { (t + 456 * VBLANK_LINES) / FRAME_CYCLES }

  function Count(shown: seq<bool>): nat {
    if shown == [] then 0 else Count(shown[..|shown| - 1]) + B2N(shown[|shown| - 1])
  }

  function PhaseLy(p: Phase): nat {
    match p
    case HBlank(i) => i + 1
    case VBlank(k) => SCREEN_HEIGHT + k
    case _ => p.line
  }

  function PhaseMode(p: Phase): nat {
    match p
    case OamSearch(_) => 2
    case Transfer(_) => 3
    case HBlank(_) => 0
    case VBlank(_) => 1
  }

  function LinesDrawn(p: Phase): nat {
    match p
    case HBlank(i) => i + 1
    case VBlank(_) => 0
    case _ => p.line
  }

  /** What every reachable state satisfies, whatever is written to the registers. */
  ghost predicate Core(s: State) {
    && ValidPhase(s.phase)
    && s.cycle == FRAME_CYCLES * (s.vblanks - B2N(s.phase.VBlank?)) + LineStart(s.phase)
    && s.io[STAT] % 4 == PhaseMode(s.phase)
    && |s.shown| == LinesDrawn(s.phase)
    && s.windowLine == Count(s.shown)
  }

  /** And what it satisfies while LY is not written. */
  ghost predicate Inv(s: State) { Core(s) && s.io[LY] == PhaseLy(s.phase) }

  /** The state at the first wait of a simulation: LY was cleared at its start. */
  ghost predicate Initial(s: State) {
    && s.phase == OamSearch(0) && s.cycle == 0 && s.vblanks == 0
    && s.io[LY] == 0 && s.io[STAT] % 4 == 2 && s.windowLine == 0 && s.shown == []
  }

  lemma LowBits(b: nat)
    ensures b % 4 == B2N(Bit(b, 0)) + 2 * B2N(Bit(b, 1))
  {
    assert Bit(b, 1) == Bit(b / 2, 0);
    TwoDigits(b);
  }

  lemma TwoDigits(b: nat)
    ensures b % 4 == b % 2 + 2 * (b / 2 % 2)
  {
    var q, r := b / 4, b % 4;
    assert b == 4 * q + r;
    assert b / 2 == 2 * q + r / 2;
  }

  lemma {:induction false} ModeBits(b: u8, v: bool, i: nat)
    requires i < 8
    ensures Bit(SetBit8(b, v, i), 0) == if i == 0 then v else Bit(b, 0)
    ensures Bit(SetBit8(b, v, i), 1) == if i == 1 then v else Bit(b, 1)
  {
    SetBitFrame(b, v, i, 0);
    SetBitFrame(b, v, i, 1);
  }

  lemma {:induction false} SetModeEffect(s: State, bit1: bool, bit0: bool)
    ensures SetMode(s, bit1, bit0).io[STAT] % 4 == B2N(bit0) + 2 * B2N(bit1)
  {
    var b := s.io[STAT];
    ModeBits(b, bit0, 0);
    ModeBits(SetBit8(b, bit0, 0), bit1, 1);
    LowBits(SetMode(s, bit1, bit0).io[STAT]);
  }

  lemma {:induction false} CheckLycKeepsMode(s: State)
    ensures CheckLyc(s).io[STAT] % 4 == s.io[STAT] % 4
  {
    ModeBits(s.io[STAT], s.io[LY_COMP] == s.io[LY], 2);
    LowBits(s.io[STAT]);
    LowBits(CheckLyc(s).io[STAT]);
  }

  lemma {:induction false} SetBit0(b: u8)
    ensures SetBit8(b, true, 0) % 4 == b % 4 / 2 * 2 + 1
  {
    ModeBits(b, true, 0);
    LowBits(b);
    LowBits(SetBit8(b, true, 0));
  }

  lemma {:induction false} TransferStarts(s: State)
    requires Core(s) && s.phase.OamSearch?
    ensures Core(Resume(s)) && (Inv(s) ==> Inv(Resume(s)))
  {
    SetBit0(s.io[STAT]);
  }

  lemma {:induction false} EndTransferEffect(s: State, i: nat)
    ensures var t := EndTransfer(s, i);
      && t == s.(phase := HBlank(i), io := t.io, intr := t.intr, lycRequests := t.lycRequests)
      && t.io[LY] == Inc8(s.io[LY]) && t.io[STAT] % 4 == s.io[STAT] % 4
  {
    hide Bit, SetBit, SetBit8;
    var u := SetLy(s, Inc8(s.io[LY]));
    CheckLycKeepsMode(if Bit(u.io[STAT], 3) then u.(intr := SetBit8(u.intr, true, 1)) else u);
  }

  lemma {:induction false} HBlankStarts(s: State)
    requires Core(s) && s.phase.Transfer?
    ensures Core(Resume(s)) && (Inv(s) ==> Inv(Resume(s)))
  {
    hide SetBit8, WindowShown, EndTransfer;
    var t := s.(cycle := s.cycle + Duration(s.phase));
    SetModeEffect(t, false, false);
    var m := SetMode(t, false, false);
    assert (s.shown + [WindowShown(m.io, s.phase.line)])[..|s.shown|] == s.shown;
    EndTransferEffect(CountLine(m, s.phase.line), s.phase.line);
  }

  lemma {:induction false} HBlankEnds(s: State)
    requires Core(s) && s.phase.HBlank?
    ensures Core(Resume(s)) && (Inv(s) ==> Inv(Resume(s)))
  {
    var t := s.(cycle := s.cycle + Duration(s.phase));
    if s.phase.line + 1 < SCREEN_HEIGHT {
      SetModeEffect(t, true, false);
    } else {
      SetBit0(s.io[STAT]);
    }
  }

  lemma {:induction false} VBlankLineEnds(s: State)
    requires Core(s) && s.phase.VBlank?
    ensures Core(Resume(s)) && (Inv(s) ==> Inv(Resume(s)))
  {
    var t := s.(cycle := s.cycle + Duration(s.phase));
    var u := SetLy(t, Inc8(t.io[LY]));
    CheckLycKeepsMode(u);
    if s.phase.k + 1 == VBLANK_LINES {
      var w := CheckLyc(SetLy(CheckLyc(u), 0));
      SetModeEffect(w, true, false);
    }
  }

  lemma EightThenFour(b: nat)
    ensures b % 8 % 4 == b % 4
  {
  }

  lemma {:induction false} StepKeepsCore(s: State, e: Event)
    requires Core(s) && Possible(e)
    ensures Core(Step(s, e)) && (Inv(s) && Allowed(e) ==> Inv(Step(s, e)))
  {
    match e
    case Wake =>
      hide Core, Resume, Inv;
      match s.phase {
        case OamSearch(_) => TransferStarts(s);
        case Transfer(_) => HBlankStarts(s);
        case HBlank(_) => HBlankEnds(s);
        case VBlank(_) => VBlankLineEnds(s);
      }
    case BusWrite(adr, v) =>
      StatusBitsReadOnly(s.io, adr, v);
      EightThenFour(WriteReg(s.io, adr, v)[STAT]);
      EightThenFour(s.io[STAT]);
      hide WriteReg;
    case SoundStore(_, _) =>
    case SetIntr(_) =>
  }

  lemma {:induction false} RunKeepsInv(s: State, es: seq<Event>)
    requires Core(s) && forall e :: e in es ==> Possible(e)
    ensures Core(Run(s, es)) && (Inv(s) && (forall e :: e in es ==> Allowed(e)) ==> Inv(Run(s, es)))
    decreases |es|
  {
    hide Core, Inv, Step, Allowed;
    if es != [] {
      RunKeepsInv(s, es[..|es| - 1]);
      StepKeepsCore(Run(s, es[..|es| - 1]), es[|es| - 1]);
    }
  }

  lemma FrameOffset(f: nat, c: nat)
    requires c < FRAME_CYCLES
    ensures (FRAME_CYCLES * f + c) % FRAME_CYCLES == c
    ensures (FRAME_CYCLES * f + c) / FRAME_CYCLES == f
  {
  }

  lemma LineAt(c: nat, i: nat)
    requires 456 * i <= c < 456 * (i + 1)
    ensures c / 456 == i && c % 456 == c - 456 * i
  {
  }

  lemma InFirstFrame(c: nat)
    requires c < FRAME_CYCLES
    ensures LyAt(c) == if c < 456 * SCREEN_HEIGHT then (c + 208) / 456 else c / 456
    ensures ModeAt(c) == if c >= 456 * SCREEN_HEIGHT then 1
                         else if c % 456 < 80 then 2 else if c % 456 < 248 then 3 else 0
  {
    FrameOffset(0, c);
  }

  lemma {:induction false} PhaseClosedForms(p: Phase, c: nat)
    requires ValidPhase(p) && LineStart(p) <= c < LineStart(p) + Duration(p)
    ensures c < FRAME_CYCLES && LyAt(c) == PhaseLy(p) && ModeAt(c) == PhaseMode(p)
    ensures p.VBlank? <==> c >= 456 * SCREEN_HEIGHT
  {
    InFirstFrame(c);
    hide LyAt, ModeAt;
    match p
    case OamSearch(i) => LineAt(c, i); LineAt(c + 208, i);
    case Transfer(i) => LineAt(c, i); LineAt(c + 208, i);
    case HBlank(i) => LineAt(c, i); LineAt(c + 208, i + 1);
    case VBlank(k) => LineAt(c, SCREEN_HEIGHT + k);
  }

  lemma {:induction false} ShiftByFrames(f: nat, c: nat)
    requires c < FRAME_CYCLES
    ensures LyAt(FRAME_CYCLES * f + c) == LyAt(c) && ModeAt(FRAME_CYCLES * f + c) == ModeAt(c)
    ensures VBlanksAt(FRAME_CYCLES * f + c) == f + B2N(c >= 456 * SCREEN_HEIGHT)
  {
    FrameOffset(f, c);
    assert c % FRAME_CYCLES == c;
    if c >= 456 * SCREEN_HEIGHT {
      FrameOffset(f + 1, c + 456 * VBLANK_LINES - FRAME_CYCLES);
    } else {
      FrameOffset(f, c + 456 * VBLANK_LINES);
    }
  }

  lemma {:induction false} CoreClosedForms(r: State, t: nat)
    requires Core(r) && r.cycle <= t < r.cycle + Duration(r.phase)
    ensures r.io[STAT] % 4 == ModeAt(t) && r.vblanks == VBlanksAt(t) && LyAt(t) == PhaseLy(r.phase) <= 153
  {
    var f := r.vblanks - B2N(r.phase.VBlank?);
    assert r.cycle == FRAME_CYCLES * f + LineStart(r.phase);
    var c := t - FRAME_CYCLES * f;
    FramesNonNegative(r, f);
    PhaseClosedForms(r.phase, c);
    ShiftByFrames(f, c);
  }

  lemma FramesNonNegative(r: State, f: int)
    requires Core(r) && f == r.vblanks - B2N(r.phase.VBlank?)
    ensures f >= 0
  {
    assert LineStart(r.phase) < FRAME_CYCLES;
  }

  /** At every instant of every run the mode bits and the number of V-Blank requests are functions of
      the cycle count, and so is LY while nobody writes it. */
  lemma {:induction false} ClosedForms(s: State, es: seq<Event>, t: nat)
    requires Initial(s) && forall e :: e in es ==> Possible(e)
    requires var r := Run(s, es); r.cycle <= t < r.cycle + Duration(r.phase)
    ensures Run(s, es).io[STAT] % 4 == ModeAt(t)
    ensures Run(s, es).vblanks == VBlanksAt(t)
    ensures (forall e :: e in es ==> Allowed(e)) ==> Run(s, es).io[LY] == LyAt(t) <= 153
  {
    RunKeepsInv(s, es);
    CoreClosedForms(Run(s, es), t);
  }

  /** Any stretch of one frame length holds exactly one V-Blank request. */
  lemma {:induction false} OneVBlankPerFrame(t: nat)
    ensures VBlanksAt(t + FRAME_CYCLES) == VBlanksAt(t) + 1
    ensures LyAt(t + FRAME_CYCLES) == LyAt(t) && ModeAt(t + FRAME_CYCLES) == ModeAt(t)
  {
    FrameOffset(t / FRAME_CYCLES, t % FRAME_CYCLES);
    FrameOffset(t / FRAME_CYCLES + 1, t % FRAME_CYCLES);
    var u := t + 456 * VBLANK_LINES;
    FrameOffset(u / FRAME_CYCLES + 1, u % FRAME_CYCLES);
  }

  lemma {:induction false} CountBound(shown: seq<bool>)
    ensures Count(shown) <= |shown|
  {
    if shown != [] {
      CountBound(shown[..|shown| - 1]);
    }
  }

  /** When a line is drawn, the window counter is the number of earlier lines of the frame that
      showed the window, however the registers changed, so the window map index stays in the map. */
  lemma {:induction false} WindowCounter(s: State, es: seq<Event>, i: nat)
    requires Initial(s) && forall e :: e in es ==> Possible(e)
    requires Run(s, es).phase == Transfer(i)
    ensures var r := Run(s, es); r.windowLine == Count(r.shown) && |r.shown| == i
    ensures Run(s, es).windowLine <= i < SCREEN_HEIGHT
    ensures forall x :: 0 <= x < SCREEN_WIDTH + 7 ==> 32 * (Run(s, es).windowLine / 8) + x / 8 < 1024
  {
    RunKeepsInv(s, es);
    CountBound(Run(s, es).shown);
  }

  // The coincidence bit and its requests.

  /** The bit is set or cleared by the comparison, the request added if enabled; nothing else. */
  lemma {:induction false} CheckLycEffect(s: State)
    ensures var t, equal := CheckLyc(s), s.io[LY] == s.io[LY_COMP];
      && (forall j: nat :: Bit(t.io[STAT], j) == if j == 2 then equal else Bit(s.io[STAT], j))
      && (forall j: nat :: Bit(t.intr, j) == (Bit(s.intr, j) || (j == 1 && Bit(s.io[STAT], 6) && equal)))
      && (forall a :: 0 <= a < 0x80 && a != STAT ==> t.io[a] == s.io[a])
  {
    hide Bit, SetBit;
    var t := CheckLyc(s);
    forall j: nat ensures Bit(t.io[STAT], j) == if j == 2 then s.io[LY] == s.io[LY_COMP] else Bit(s.io[STAT], j) {
      SetBitFrame(s.io[STAT], s.io[LY_COMP] == s.io[LY], 2, j);
    }
    forall j: nat ensures Bit(t.intr, j) == (Bit(s.intr, j) || (j == 1 && t.lycRequests > s.lycRequests)) {
      SetBitFrame(s.intr, true, 1, j);
    }
  }

  /** STAT bits 2 and 6 after a mode change. */
  lemma {:induction false} ModeKeepsBit(b: u8, v: bool, i: nat, j: nat)
    requires i < 2 <= j
    ensures Bit(SetBit8(b, v, i), j) == Bit(b, j)
  {
    SetBitFrame(b, v, i, j);
  }

  lemma {:induction false} SetModeKeepsBit(s: State, bit1: bool, bit0: bool, j: nat)
    requires j >= 2
    ensures Bit(SetMode(s, bit1, bit0).io[STAT], j) == Bit(s.io[STAT], j)
  {
    ModeKeepsBit(s.io[STAT], bit0, 0, j);
    ModeKeepsBit(SetBit8(s.io[STAT], bit0, 0), bit1, 1, j);
  }

  /** A wake-up compares LY again exactly when it changes LY. */
  predicate Compares(p: Phase) { p.Transfer? || p.VBlank? }

  /** A wake-up keeps LYC and the enable bit, and leaves the coincidence bit to the comparison. */
  lemma {:induction false} ResumeCompares(s: State)
    ensures var t := Resume(s);
      && t.io[LY_COMP] == s.io[LY_COMP] && Bit(t.io[STAT], 6) == Bit(s.io[STAT], 6)
      && (if Compares(s.phase) then Bit(t.io[STAT], 2) == (t.io[LY] == t.io[LY_COMP])
          else t.io[LY] == s.io[LY] && Bit(t.io[STAT], 2) == Bit(s.io[STAT], 2))
  {
    match s.phase
    case OamSearch(_) =>
      ModeKeepsBit(s.io[STAT], true, 0, 2);
      ModeKeepsBit(s.io[STAT], true, 0, 6);
    case Transfer(_) => TransferCompares(s);
    case HBlank(i) =>
      ModeKeepsBit(s.io[STAT], true, 0, 2);
      ModeKeepsBit(s.io[STAT], true, 0, 6);
      SetModeKeepsBit(s, true, false, 2);
      SetModeKeepsBit(s, true, false, 6);
    case VBlank(_) => VBlankCompares(s);
  }

  lemma {:induction false} TransferCompares(s: State)
    requires s.phase.Transfer?
    ensures var t := Resume(s);
      && t.io[LY_COMP] == s.io[LY_COMP] && Bit(t.io[STAT], 6) == Bit(s.io[STAT], 6)
      && Bit(t.io[STAT], 2) == (t.io[LY] == t.io[LY_COMP])
      && t.lycRequests == s.lycRequests + B2N(Bit(s.io[STAT], 6) && Inc8(s.io[LY]) == s.io[LY_COMP])
  {
    hide Bit, SetBit, SetBit8, WindowShown;
    var c := s.(cycle := s.cycle + Duration(s.phase));
    SetModeKeepsBit(c, false, false, 6);
    var m := SetMode(c, false, false);
    var seen := WindowShown(m.io, s.phase.line);
    var u := SetLy(m.(windowLine := m.windowLine + B2N(seen), shown := m.shown + [seen]), Inc8(m.io[LY]));
    var w := if Bit(u.io[STAT], 3) then u.(intr := SetBit8(u.intr, true, 1)) else u;
    CheckLycEffect(w);
    assert Resume(s) == CheckLyc(w).(phase := HBlank(s.phase.line));
  }

  lemma {:induction false} VBlankCompares(s: State)
    requires s.phase.VBlank?
    ensures var t := Resume(s);
      && t.io[LY_COMP] == s.io[LY_COMP] && Bit(t.io[STAT], 6) == Bit(s.io[STAT], 6)
      && Bit(t.io[STAT], 2) == (t.io[LY] == t.io[LY_COMP])
      && t.lycRequests == s.lycRequests + B2N(Bit(s.io[STAT], 6) && Inc8(s.io[LY]) == s.io[LY_COMP])
           + B2N(s.phase.k + 1 >= VBLANK_LINES && Bit(s.io[STAT], 6) && 0 == s.io[LY_COMP])
  {
    hide Bit, SetBit, SetBit8;
    var c := s.(cycle := s.cycle + Duration(s.phase));
    var u := SetLy(c, Inc8(c.io[LY]));
    CheckLycEffect(u);
    if s.phase.k + 1 >= VBLANK_LINES {
      var w := SetLy(CheckLyc(u), 0);
      CheckLycEffect(w);
      SetModeKeepsBit(CheckLyc(w), true, false, 2);
      SetModeKeepsBit(CheckLyc(w), true, false, 6);
    }
  }

  /** LYC when LY was last compared with it. */
  function Compared(s: State, es: seq<Event>): Option<u8>
    requires forall e :: e in es ==> Possible(e)
    decreases |es|
  {
    if es == [] then None
    else
      var r := Run(s, es[..|es| - 1]);
      if es[|es| - 1] == Wake && Compares(r.phase) then Some(r.io[LY_COMP]) else Compared(s, es[..|es| - 1])
  }

  lemma {:induction false} WritesKeepCoincidence(s: State, e: Event)
    requires Allowed(e) && e != Wake
    ensures Step(s, e).io[LY] == s.io[LY] && Bit(Step(s, e).io[STAT], 2) == Bit(s.io[STAT], 2)
  {
    if e.BusWrite? {
      StatusBitsReadOnly(s.io, e.adr, e.v);
      hide WriteReg;
      LowThree(s.io[STAT]);
      LowThree(Step(s, e).io[STAT]);
    }
  }

  lemma {:induction false} LowThree(b: u8)
    ensures Bit(b, 2) == (b % 8 >= 4)
  {
    assert Bit(b, 2) == Bit(b / 2, 1) == Bit(b / 2 / 2, 0);
  }

  /** Once LY has been compared, STAT bit 2 tells whether LY equals the LYC of that comparison. That
      is whether it equals LYC now exactly if LYC was not moved onto or off LY since. */
  lemma {:induction false} CoincidenceBit(s: State, es: seq<Event>)
    requires forall e :: e in es ==> Possible(e)
    requires (forall e :: e in es ==> Allowed(e)) && Compared(s, es).Some?
    ensures var r, lyc := Run(s, es), Compared(s, es).value;
      && Bit(r.io[STAT], 2) == (r.io[LY] == lyc)
      && ((Bit(r.io[STAT], 2) == (r.io[LY] == r.io[LY_COMP])) <==>
          (r.io[LY_COMP] == lyc || (r.io[LY] != lyc && r.io[LY] != r.io[LY_COMP])))
    decreases |es|
  {
    hide Bit, Resume;
    var before, e := es[..|es| - 1], es[|es| - 1];
    var r := Run(s, before);
    assert Allowed(e);
    if e == Wake {
      ResumeCompares(r);
      if !Compares(r.phase) {
        CoincidenceBit(s, before);
      }
    } else {
      WritesKeepCoincidence(r, e);
      CoincidenceBit(s, before);
    }
  }

  /** A write to LYC is not compared before LY next changes. */
  lemma {:induction false} CoincidenceIsStale(s: State, lyc: u8)
    requires s.io[LY] == s.io[LY_COMP] != lyc && Bit(s.io[STAT], 2)
    ensures var t := Step(s, BusWrite(LY_COMP, lyc)); t.io[LY] != t.io[LY_COMP] && Bit(t.io[STAT], 2)
  {
    WritesKeepCoincidence(s, BusWrite(LY_COMP, lyc));
  }

  /** Cycle of a frame at which LY takes the value `lyc`; 154 is taken for no time at its end. */
  function MatchTime(lyc: nat): nat {
    if lyc == 0 then FRAME_CYCLES else if lyc <= SCREEN_HEIGHT then 456 * (lyc - 1) + 248 else 456 * lyc
  }

  /** Coincidence requests up to cycle `t` while LYC is `lyc`. */
  function LycRequestsAt(t: nat, lyc: nat): int {
    if lyc > 154 then 0 else (t + FRAME_CYCLES - MatchTime(lyc)) / FRAME_CYCLES
  }

  lemma LycRequestsInFrame(f: nat, c: nat, lyc: nat)
    requires c <= FRAME_CYCLES && lyc <= 154
    ensures LycRequestsAt(FRAME_CYCLES * f + c, lyc) == f + B2N(c >= MatchTime(lyc))
  {
    if c >= MatchTime(lyc) {
      FrameOffset(f + 1, c - MatchTime(lyc));
    } else {
      FrameOffset(f, c + FRAME_CYCLES - MatchTime(lyc));
    }
  }

  /** Comparisons that find `lyc` when the wait in `p` ends. */
  function Matches(p: Phase, lyc: nat): nat {
    match p
    case Transfer(i) => B2N(lyc == i + 1)
    case VBlank(k) => B2N(lyc == SCREEN_HEIGHT + k + 1) + B2N(k + 1 == VBLANK_LINES && lyc == 0)
    case _ => 0
  }

  lemma {:induction false} MatchesInWait(p: Phase, lyc: nat)
    requires ValidPhase(p) && lyc <= 154
    ensures Matches(p, lyc) == B2N(LineStart(p) < MatchTime(lyc) <= LineStart(p) + Duration(p))
  {
    match p
    case OamSearch(i) =>
    case Transfer(i) =>
    case HBlank(i) =>
    case VBlank(k) =>
  }

  lemma {:induction false} WakeRequests(s: State)
    requires Inv(s) && Bit(s.io[STAT], 6)
    ensures Resume(s).lycRequests == s.lycRequests + Matches(s.phase, s.io[LY_COMP])
  {
    hide Bit, SetBit, SetBit8;
    match s.phase
    case Transfer(_) =>
      hide Resume;
      TransferCompares(s);
    case VBlank(_) =>
      hide Resume;
      VBlankCompares(s);
    case _ =>
  }

  lemma {:induction false} WakeCount(s: State, lyc: nat)
    requires Core(s)
    ensures LycRequestsAt(s.cycle + Duration(s.phase), lyc) - LycRequestsAt(s.cycle, lyc) == Matches(s.phase, lyc)
  {
    var f := s.vblanks - B2N(s.phase.VBlank?);
    FramesNonNegative(s, f);
    var c := LineStart(s.phase);
    if lyc <= 154 {
      MatchesInWait(s.phase, lyc);
      LycRequestsInFrame(f, c, lyc);
      LycRequestsInFrame(f, c + Duration(s.phase), lyc);
    }
  }

  /** Writes that leave LY and LYC alone and the coincidence interrupt enabled. */
  predicate HoldsLyc(e: Event) {
    Allowed(e) && (e.BusWrite? ==> e.adr != LY_COMP && (e.adr == STAT ==> Bit(e.v, 6)))
  }

  lemma {:induction false} StatEnable(v: u8, old3: nat)
    requires old3 < 8
    ensures Bit(v / 8 % 16 * 8 + old3, 6) == Bit(v, 6)
  {
    hide Bit;
    SixthBit(v);
    SixthBit(v / 8 % 16 * 8 + old3);
    EighthDigit(v / 8, old3);
  }

  lemma EighthDigit(q: nat, r: nat)
    requires q < 32 && r < 8
    ensures (q % 16 * 8 + r) / 64 % 2 == q / 8 % 2
  {
    var h := if q >= 16 then q - 16 else q;
    assert q % 16 == h && (h * 8 + r) / 64 == h / 8;
  }

  lemma {:induction false} SixthBit(b: nat)
    ensures Bit(b, 6) == (b / 64 % 2 == 1)
  {
    assert Bit(b, 6) == Bit(b / 2, 5) == Bit(b / 2 / 2, 4) == Bit(b / 2 / 2 / 2, 3);
    assert Bit(b / 8, 3) == Bit(b / 8 / 2, 2) == Bit(b / 8 / 2 / 2, 1) == Bit(b / 8 / 2 / 2 / 2, 0);
    assert b / 2 / 2 / 2 == b / 8 && b / 8 / 2 / 2 / 2 == b / 64;
  }

  lemma {:induction false} WritesHoldLyc(s: State, e: Event)
    requires HoldsLyc(e) && e != Wake && Bit(s.io[STAT], 6)
    ensures var t := Step(s, e);
      t.io[LY_COMP] == s.io[LY_COMP] && Bit(t.io[STAT], 6) && t.lycRequests == s.lycRequests && t.cycle == s.cycle
  {
    if e.BusWrite? && e.adr == STAT {
      StatEnable(e.v, s.io[STAT] % 8);
    }
    hide Bit;
  }

  /** While LYC is held and its interrupt enabled, the requests of any run are a function of the
      cycles it spans. */
  lemma {:induction false} LycRequestCount(s: State, es: seq<Event>)
    requires forall e :: e in es ==> Possible(e)
    requires Inv(s) && Bit(s.io[STAT], 6) && forall e :: e in es ==> HoldsLyc(e)
    ensures var r, lyc := Run(s, es), s.io[LY_COMP];
      && Inv(r) && r.io[LY_COMP] == lyc && Bit(r.io[STAT], 6)
      && r.lycRequests - s.lycRequests == LycRequestsAt(r.cycle, lyc) - LycRequestsAt(s.cycle, lyc)
    decreases |es|
  {
    hide Bit, Resume, LycRequestsAt, Matches;
    if es != [] {
      var before, e := es[..|es| - 1], es[|es| - 1];
      assert HoldsLyc(e);
      LycRequestCount(s, before);
      var r := Run(s, before);
      StepKeepsCore(r, e);
      if e == Wake {
        ResumeCompares(r);
        WakeRequests(r);
        WakeCount(r, s.io[LY_COMP]);
        ResumeTakesTime(r);
      } else {
        WritesHoldLyc(r, e);
      }
    }
  }

  lemma ResumeTakesTime(s: State)
    ensures Resume(s).cycle == s.cycle + Duration(s.phase)
  {
  }

  /** One frame brings exactly one coincidence request for LYC up to 154, and none above. */
  lemma {:induction false} OneLycRequestPerFrame(s: State, es: seq<Event>)
    requires forall e :: e in es ==> Possible(e)
    requires Inv(s) && Bit(s.io[STAT], 6) && forall e :: e in es ==> HoldsLyc(e)
    requires Run(s, es).cycle == s.cycle + FRAME_CYCLES
    ensures Run(s, es).lycRequests == s.lycRequests + B2N(s.io[LY_COMP] <= 154)
  {
    LycRequestCount(s, es);
    var lyc := s.io[LY_COMP];
    if lyc <= 154 {
      var x := s.cycle + FRAME_CYCLES - MatchTime(lyc);
      FrameOffset(x / FRAME_CYCLES + 1, x % FRAME_CYCLES);
    }
  }

  // Requests in the interrupt flags.

  /** The end of a line's transfer requests an interrupt if STAT bit 3 is on. */
  predicate RequestsHBlank(s: State) { s.phase.Transfer? && Bit(s.io[STAT], 3) }

  /** The flags after a wake-up: bit 0 for V-Blank, bit 1 for H-Blank or coincidence, no other. */
  ghost predicate Requests(s: State, t: State) {
    && Bit(t.intr, 0) == (Bit(s.intr, 0) || t.vblanks > s.vblanks)
    && Bit(t.intr, 1) == (Bit(s.intr, 1) || t.lycRequests > s.lycRequests || RequestsHBlank(s))
    && (forall j: nat :: j >= 2 ==> Bit(t.intr, j) == Bit(s.intr, j))
  }

  lemma {:induction false} SetFlag(b: u8, i: nat)
    requires i < 2
    ensures forall j: nat :: Bit(SetBit8(b, true, i), j) == (Bit(b, j) || j == i)
  {
    hide Bit, SetBit;
    forall j: nat ensures Bit(SetBit8(b, true, i), j) == (Bit(b, j) || j == i) {
      SetBitFrame(b, true, i, j);
    }
  }

  lemma {:induction false} CheckLycRequests(s: State)
    ensures var t := CheckLyc(s);
      && (forall j: nat :: Bit(t.intr, j) == (Bit(s.intr, j) || (j == 1 && t.lycRequests > s.lycRequests)))
      && t.vblanks == s.vblanks && t.lycRequests >= s.lycRequests
  {
    hide Bit, SetBit8;
    SetFlag(s.intr, 1);
  }

  lemma {:induction false} TransferRequests(s: State)
    requires s.phase.Transfer?
    ensures Requests(s, Resume(s))
  {
    hide Bit, SetBit, SetBit8, WindowShown, CheckLyc;
    var i := s.phase.line;
    var c := s.(cycle := s.cycle + Duration(s.phase));
    SetModeKeepsBit(c, false, false, 3);
    var m := CountLine(SetMode(c, false, false), i);
    var u := SetLy(m, Inc8(m.io[LY]));
    SetFlag(u.intr, 1);
    CheckLycRequests(if Bit(u.io[STAT], 3) then u.(intr := SetBit8(u.intr, true, 1)) else u);
    assert Resume(s) == EndTransfer(m, i);
  }

  lemma {:induction false} VBlankLineRequests(s: State)
    requires s.phase.VBlank?
    ensures Requests(s, Resume(s))
  {
    hide Bit, SetBit, SetBit8, CheckLyc;
    var c := s.(cycle := s.cycle + Duration(s.phase));
    var u := SetLy(c, Inc8(c.io[LY]));
    CheckLycRequests(u);
    CheckLycRequests(SetLy(CheckLyc(u), 0));
  }

  lemma {:induction false} LineRequests(s: State)
    requires s.phase.OamSearch? || s.phase.HBlank?
    ensures Requests(s, Resume(s))
  {
    hide Bit, SetBit, SetBit8;
    SetFlag(s.intr, 0);
  }

  /** Over one step the flags record exactly the requests made in it. */
  lemma {:induction false} StepRequests(s: State, e: Event)
    requires Possible(e) && !e.SetIntr?
    ensures if e == Wake then Requests(s, Step(s, e))
            else Step(s, e).intr == s.intr && Step(s, e).vblanks == s.vblanks && Step(s, e).lycRequests == s.lycRequests
  {
    hide Resume, Requests;
    if e == Wake {
      match s.phase {
        case OamSearch(_) => LineRequests(s);
        case Transfer(_) => TransferRequests(s);
        case HBlank(_) => LineRequests(s);
        case VBlank(_) => VBlankLineRequests(s);
      }
    }
  }

  lemma {:induction false} RequestsOnlyGrow(s: State, e: Event)
    requires Possible(e) && !e.SetIntr?
    ensures Step(s, e).vblanks >= s.vblanks
  {
  }

  /** While nobody else writes the flags, V-Blank is requested after a run exactly if it was before or
      a V-Blank came in it. */
  lemma {:induction false} RunRequestsVBlank(s: State, es: seq<Event>)
    requires forall e :: e in es ==> Possible(e)
    requires forall e :: e in es ==> !e.SetIntr?
    ensures Run(s, es).vblanks >= s.vblanks
    ensures Bit(Run(s, es).intr, 0) == (Bit(s.intr, 0) || Run(s, es).vblanks > s.vblanks)
    decreases |es|
  {
    hide Bit, Step;
    if es != [] {
      var before, e := es[..|es| - 1], es[|es| - 1];
      assert e in es;
      RunRequestsVBlank(s, before);
      StepRequests(Run(s, before), e);
      RequestsOnlyGrow(Run(s, before), e);
    }
  }

  /** After the wake-up at cycle 65664 of every frame the V-Blank request is in the flags. */
  lemma {:induction false} VBlankIsRequested(s: State, es: seq<Event>)
    requires Initial(s) && (forall e :: e in es ==> Possible(e)) && es != [] && es[|es| - 1] == Wake
    requires Run(s, es).cycle % 70224 == 65664
    ensures Bit(Run(s, es).intr, 0) && Run(s, es).phase == VBlank(0)
    ensures Run(s, es).vblanks == Run(s, es).cycle / 70224 + 1
  {
    var before := es[..|es| - 1];
    var r, t := Run(s, before), Run(s, es);
    RunKeepsInv(s, before);
    RunKeepsInv(s, es);
    StartOfVBlank(t);
    StepRequests(r, Wake);
    OnlyHBlankEnters(r);
  }

  lemma {:induction false} StartOfVBlank(t: State)
    requires Core(t) && t.cycle % 70224 == 65664
    ensures t.phase == VBlank(0) && t.vblanks == t.cycle / 70224 + 1
  {
    var f := t.vblanks - B2N(t.phase.VBlank?);
    FramesNonNegative(t, f);
    FrameOffset(f, LineStart(t.phase));
  }

  lemma OnlyHBlankEnters(s: State)
    requires Resume(s).phase == VBlank(0)
    ensures s.phase.HBlank? && Resume(s).vblanks == s.vblanks + 1
  {
    hide Bit, SetBit8, CheckLyc;
  }
}
