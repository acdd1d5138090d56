# TLMBoy in Dafny

TLMBoy simulates a Game Boy as SystemC threads that share registers and memory. This project models
the parts of it that carry arithmetic, aliasing or timing, and proves what they compute over every
input, every run or every reachable state. Code that updates objects in place is a class whose
methods are proved against functions on values; the main results are lemmas about those functions.

`dafny verify dfyconfig.toml` checks everything.

## How the files fit together

- **Picture.** `Pixels` says what a pixel of a tile map is, `Sprites` which sprites a line selects
  and which one decides a dot, without sorting, truncating or drawing. `PpuDraw` has the three
  drawing passes as loops over the line buffers and the render loop as a state machine in place.
  `Layers` and `StableSort` hold the painter's-order and stable-sort arguments, `Frame` the timed
  machine on values with arbitrary bus writes in between, `Picture` what a line drawn at some moment
  must show from then on, `ExtendedWindow` the whole-map renderer. `PixelLaws` and `SpriteLaws` tie
  these readings to the register and table layout, in machine operations on bytes.
- **CPU.** `CpuState` has instructions, interrupt entry and the main loop's body as functions on a
  flat 64 KiB memory (the wiring of `tests/test_cpu.cpp`); `Cpu` is the class with shared register
  bytes that does the same in place. `CpuLaws` says what single opcodes change. `CpuChains`, `CpuProgram`, `CpuStack`, `CpuInterrupts`,
  `CpuSweeps`, `TimeDecoupling` and `CpuClock` prove what runs of it do.
- **Memory.** `Banking`, `Cartridge` and `Tracer` are MBC1, its boot ROM and direct pointer, and the
  access tracer. `Bus`, `IoBlockWrites` and `GbTop` are address decoding, the IO block, the concrete
  map with echo RAM over the very same arrays, and DMA.
- **Devices and debugger.** `Timer` (module `Timing`), `ShiftRegister` and `Noise` (module
  `NoiseChannel`), and `Gdb`.

Time is counted in clock cycles. The SystemC kernel is reduced to a clock, the next wake-up and
atomic steps between waits; ties between threads are left open where the kernel leaves them open.

## What the proofs show about the code

- Sprites in front of the background follow the usual priority, the least of the ten by (X, OAM
  index) wins. Sprites behind the background do not: they are drawn into the background buffer,
  each only over shade 0, so the one drawn first keeps the dot, which is the one of lowest priority.
  The two agree exactly if the two sprites have the same shade there.
- LY moves on at the start of H-Blank, 208 cycles before the line ends, not with the line. Its last
  value of a frame, 154, is there for no time, yet it is compared with LYC and can request.
- STAT bit 2 is not compared again when LYC is written, only when LY changes.
- The tracer is told bank minus one and an address from which 0x4000 was not taken off; the sum is
  exactly the file offset of the byte.
- `LoadFromFile` takes the offset off twice when the rest of the file does not fit. It fills the
  memory exactly when the rest fits or the offset is 0. An MBC1 game longer than its banks is cut
  one bank short of them.
- DMA out of switched-off cartridge RAM fills OAM with the old content of its buffer, because no
  read error is looked at.
- The wait of 16 cycles that interrupt entry asks for is overwritten by the instruction behind it.
- The noise register never locks up at constant width. Switched from 15 to 7 bits it can, two steps
  after a trigger: old upper bits are OR-ed into the feedback. Which registers lock up is exact.
- A noise sample without a due step returns an undivided sum, so after a change of settings it can
  exceed 1; a level of 5 is reached with two writes to NR43.
- A debugger packet whose second checksum character is the zero byte is accepted and loses its last
  body character.

## Model

| member | source | states |
|---|---|---|
| PpuDraw.Ppu.constructor | src/ppu.cpp:38-47 | starts in the initial state of the frame machine with every dot one of the four shades or transparent |
| PpuDraw.Ppu.ReadTilePixel | src/ppu.cpp:156-162 | table-relative addressing with wrap-around gives the pixel of the whole 256x256 map |
| PpuDraw.Ppu.DrawBgToLine | src/ppu.cpp:146-170 | column i gets the whole map's pixel at ((line+scy)%256, (scx+i)%256), white if the background is off; nothing else changes |
| PpuDraw.Ppu.DrawWndwToLine | src/ppu.cpp:172-206 | right of WX-7 the window map's pixel on the counter's row, left of it the old dot; the counter moves exactly on lines that show the window |
| PpuDraw.Ppu.SelectSprites | src/ppu.cpp:215-232 | filter, stable sort and truncation list exactly the selected sprites by priority: ten, or all visible ones if fewer |
| PpuDraw.Ppu.DrawSprite | src/ppu.cpp:235-273 | one sprite changes its coloured dots of this line in the layer its priority bit names, and nothing else |
| PpuDraw.Ppu.DrawSpriteToLine | src/ppu.cpp:208-274 | the whole pass meets the per-dot specification in both layers and leaves other lines alone |
| PpuDraw.Ppu.DrawLine | src/ppu.cpp:310-312 | the three passes together, per dot: window over background, behind-sprites only over white, front sprites in their layer |
| PpuDraw.Ppu.DrawShot | src/ppu.cpp:310-312 | drawing a line keeps every earlier line of the frame showing what it was drawn from |
| PpuDraw.Ppu.CheckLycInterrupt | src/ppu.cpp:276-285 | in place what Frame.CheckLycEffect describes |
| PpuDraw.Ppu.StartHBlank | src/ppu.cpp:306-320 | end of transfer refines the frame machine's step and draws the line from the memories of that moment |
| PpuDraw.Ppu.EndLine | src/ppu.cpp:297-299 | end of H-Blank refines the frame machine's step, V-Blank entry (323-331) included |
| PpuDraw.Ppu.EndVBlankLine | src/ppu.cpp:333-339 | end of a V-Blank line refines the frame machine's step |
| PpuDraw.Ppu.ResumeRenderLoop | src/ppu.cpp:288-341 | every resumption of the render loop refines the frame machine and keeps the picture: the lines so far, at V-Blank all 144, show what they were drawn from |
| PpuDraw.Ppu.SteadyPicture | src/ppu.cpp:296-322 | after a frame of background alone drawn with unchanged registers, all 144 lines are the crop of the whole map |
| Pixels.InterleaveBits | src/ppu.cpp:26-31 | a two-bit colour number, 0 exactly if both planes are clear at the position |
| Pixels.WrappedTileIsSigned | src/ppu.cpp:158-160 | the byte wrap-around on the upper table is the signed numbering around 0x9000 |
| Pixels.TileReadIsMapPixel | src/ppu.cpp:510-515 | the renderers' index arithmetic reads the map's pixel and stays inside the tile data |
| PixelLaws.PaletteDigits | src/ppu.cpp:34-36 | the four shades of a palette, lowest colour first, are its byte in base 4 |
| PixelLaws.MapColorsIsShift | src/ppu.cpp:34-36 | the lookup is the shift and mask on the register |
| PixelLaws.InterleaveIsMask | src/ppu.cpp:26-31 | the colour number is what testing both planes with a mask finds |
| PixelLaws.BgMapIsReference | src/ppu.h:53-60 | a background pixel is the one decoded from the register layout alone: map by mask 8 of 0xFF40, tile data by mask 0x10, palette 0xFF47, leftmost column in the top bit |
| PixelLaws.WindowMapIsReference | src/ppu.h:53-60 | a window pixel likewise, map by mask 0x40 |
| PixelLaws.BgLineIsReference | src/ppu.cpp:146-170 | a background line is that picture scrolled by 0xFF42 and 0xFF43, white without mask 1 |
| PixelLaws.WindowLines | src/ppu.cpp:173-177 | the window is on a line from WY down if mask 0x20 is on and WX is below 167 |
| PixelLaws.WindowIsReference | src/ppu.cpp:184-204 | dot c of the window row lies c to the right of WX - 7 |
| Sprites.Scene.TruncatedSortIsSelection | src/ppu.cpp:229-232 | the first ten of the sorted visible sprites are those with fewer than ten visible sprites ahead of them |
| Sprites.Scene.ReverseDrawing | src/ppu.cpp:235-273 | drawing the selection in reverse lets the least opaque front sprite, and the greatest behind sprite, decide each dot |
| Sprites.Scene.RowAddress | src/ppu.cpp:247-260 | every tile read of the sprite pass is within 0..4095 |
| Sprites.Scene.BehindPriorityIff | src/ppu.cpp:265-268 | a white dot gets what the behind sprite of highest priority has there exactly if its shade is that of the colouring one of lowest priority, or nothing colours it |
| Sprites.BehindPriorityFails | src/ppu.cpp:265-268 | a scene with sprites switched on in which of two behind sprites the one of lower priority decides |
| SpriteLaws.DotIsReference | src/ppu.cpp:235-273 | every sprite dot, in both layers, is the one decoded from OAM and register layout alone: position, size, tile, flips, palette, priority |
| SpriteLaws.UnflippedIsTile | src/ppu.cpp:247-260 | without flips the dots are those of the tile; lines 8-15 are those of the odd tile |
| SpriteLaws.FlipMirrorsColumns | src/ppu.cpp:243-260 | attribute bit 5 mirrors a sprite in its columns |
| SpriteLaws.FlipMirrorsLines | src/ppu.cpp:244-252 | attribute bit 6 mirrors it in its lines, over the height of 8 or 16 |
| Layers.DrawOverLeast | src/ppu.cpp:270 | over-painting from the end leaves the least painter's shade |
| Layers.DrawUnderGreatest | src/ppu.cpp:265-268 | painting only over white leaves the greatest painter's shade |
| StableSort.Sort | src/ppu.cpp:229-230 | sorted by X with equal keys in their old order |
| StableSort.StableOrder | src/ppu.cpp:229-230 | stable sorting of ascending OAM indices is ordering by (X, index) |
| Frame.StepKeepsCore | src/ppu.cpp:288-341 | every wake-up and every interference keeps phase, cycle, mode bits and window counter in step, and LY too unless it is written |
| Frame.RunKeepsInv | src/ppu.cpp:288-341 | so does every run |
| Frame.ClosedForms | src/ppu.cpp:288-341 | at every instant of every run STAT mode and V-Blank count are functions of the cycle count, and so is LY (at most 153) unless it is written |
| Frame.OneVBlankPerFrame | src/ppu.cpp:287-341 | any 70224 cycles hold exactly one V-Blank request, and LY and mode repeat |
| Frame.WindowCounter | src/ppu.cpp:323 | the counter is the number of earlier lines of the frame that showed the window; the map index stays below 1024 |
| Frame.CheckLycEffect | src/ppu.cpp:276-285 | STAT bit 2 becomes the comparison, the request is added if enabled, and no other bit changes |
| Frame.CoincidenceBit | src/ppu.cpp:276-285 | over every run STAT bit 2 compares LY with the LYC in force when LY last changed, and with the present LYC exactly if LYC was not moved onto or off LY since |
| Frame.CoincidenceIsStale | src/ppu.cpp:276-285 | a write that moves LYC off LY leaves the bit set |
| Frame.LycRequestCount | src/ppu.cpp:276-339 | while LYC is held and its interrupt enabled, the coincidence requests of any run are a function of the cycles it spans |
| Frame.OneLycRequestPerFrame | src/ppu.cpp:276-339 | one request a frame for LYC up to 154, where 154 is the value LY has for no time before it is cleared, and none above |
| Frame.StepRequests | src/ppu.cpp:276-340 | over one step the flags record exactly its requests: bit 0 for V-Blank, bit 1 for coincidence or, with STAT bit 3, H-Blank, no other bit |
| Frame.RunRequestsVBlank | src/ppu.cpp:331 | while nobody else writes the flags, bit 0 is set after a run exactly if it was before or a V-Blank came in it |
| Frame.VBlankIsRequested | src/ppu.cpp:325-331 | after the wake-up at cycle 65664 of every frame the V-Blank request is in the flags |
| IoBlockWrites.StatusBitsReadOnly | src/io_registers.cpp:157-160 | no bus write changes STAT bits 0-2, nor LY unless it names LY |
| IoBlockWrites.ReadBits | src/io_registers.cpp:41-109 | a read shows the stored bits, and ones where the register cannot be read |
| IoBlockWrites.MasksByRegister | src/io_registers.cpp:43-105 | which bits those are, register by register |
| IoBlockWrites.StoreThenLoad | src/io_registers.cpp:157-172 | a picture register reads back what was stored, STAT its upper bits over the old lower three |
| IoBlockWrites.StoreElsewhere | src/io_registers.cpp:113-120 | a store leaves the other registers alone, but for switching the sound off; while it is off its registers ignore stores |
| ExtendedWindow.ExtGameWindow.DrawMap | src/ppu.cpp:502-518 | a second renderer gives the same map pixels for the whole map |
| ExtendedWindow.ExtGameWindow.OverlayViewport | src/ppu.cpp:520-544 | the wrapped viewport shows the buffers' dots where it lies and leaves the rest |
| ExtendedWindow.ExtGameWindow.DrawFrame | src/ppu.cpp:546-560 | exactly the outermost dots of the wrapped viewport turn red |
| ExtendedWindow.ExtGameWindow.DrawToScreen | src/ppu.cpp:484-560 | map, background, sprites and frame together, pixel by pixel; nothing if the display is off |
| ExtendedWindow.ExtGameWindow.ViewportIsCrop | src/ppu.cpp:524-532 | after a frame of background alone the viewport inside its frame equals the map under it |
| ExtendedWindow.TextureBytes | src/ppu.cpp:406-412 | the texture colour holds red, green and blue from its third byte down |
| Cpu.Cpu.constructor | src/reg_file.h:123 | the shared bytes start as zero, which is the power-on state of the value model |
| Cpu.Cpu.Write16 | src/reg_file.h:111-116 | a 16-bit register and its two 8-bit halves are views of the same bytes |
| Cpu.Cpu.FlagWritten | src/cpu.cpp:23-37 | setting a digit of F sets one flag and keeps the others and the low nibble |
| Cpu.Cpu.ReadBus | src/cpu.cpp:75-95 | the direct pointer and the bus give the same byte on flat memory |
| Cpu.Cpu.FetchNext2InstrBytes | src/cpu.cpp:116-123 | little-endian operand, PC advanced by two |
| Cpu.Cpu.AddBytes | src/cpu_ops.cpp:321-331 | the carry found by comparing the sum with an operand is the ninth bit, also with carry in |
| Cpu.Cpu.SubBytes | src/cpu_ops.cpp:395-405 | likewise the borrow |
| Cpu.Cpu.InstrAddA | src/cpu_ops.cpp:287-295 | refines the value step |
| Cpu.Cpu.InstrAddACarry | src/cpu_ops.cpp:321-331 | refines the value step |
| Cpu.Cpu.InstrSub | src/cpu_ops.cpp:371-380 | refines the value step |
| Cpu.Cpu.InstrSubCarry | src/cpu_ops.cpp:395-405 | refines the value step |
| Cpu.Cpu.DecimalAdjust | src/cpu_ops.cpp:934-955 | the correction built up step by step is the one chosen from flags and digits |
| Cpu.Cpu.InstrInc | src/cpu_ops.cpp:140-143 | 16-bit increment touches no flag |
| Cpu.Cpu.InstrDec | src/cpu_ops.cpp:460-463 | 16-bit decrement touches no flag |
| Cpu.Cpu.InstrDecB | src/cpu_ops.cpp:466-472 | keeps the carry flag |
| Cpu.Cpu.InstrJumpIf | src/cpu_ops.cpp:585-595 | the displacement counts from the byte behind it |
| Cpu.Cpu.ShiftValue | src/cpu_ops.cpp:730-767 | RL and RR through carry, and the shifts of 793-803, 902-912 and 986-997 |
| Cpu.Cpu.InstrShift | src/cpu_ops.cpp:730-767 | reads, shifts and writes back one memory byte |
| Cpu.Cpu.InstrPush | src/cpu_ops.cpp:690-696 | high byte first, SP down by two |
| Cpu.Cpu.InstrPop | src/cpu_ops.cpp:699-709 | keeps the low nibble of F whatever lay on the stack |
| Cpu.Cpu.InstrCall | src/cpu_ops.cpp:642-648 | pushes the address behind the operand |
| Cpu.Cpu.InstrRet | src/cpu_ops.cpp:667-675 | continues at the word it pops |
| Cpu.Cpu.InstrRetI | src/cpu_ops.cpp:678-687 | likewise, with interrupts enabled again |
| Cpu.Cpu.InstrRST | src/cpu_ops.cpp:859-866 | pushes the return address and goes to the vector |
| Cpu.Cpu.HandleInterrupts | src/cpu.cpp:174-214 | the chain of tests enters the lowest pending bit's vector and clears just that bit |
| Cpu.Cpu.DoMachineCycle | src/cpu_jumptable.cpp:36-50 | one round of the main loop refines the value cycle for every modelled opcode |
| CpuState.CycleCost | src/cpu_jumptable.cpp:36-38 | every modelled instruction waits 4 to 24 cycles |
| CpuState.EntryWaitIsLost | src/cpu_jumptable.cpp:36-50 | the wait of a cycle is the executed instruction's own, whatever interrupt entry asked for |
| CpuState.FlagsRoundTrip | src/cpu.cpp:39-53 | flags and low nibble determine F, and F them |
| CpuLaws.PopEffect | src/cpu_jumptable.cpp:826-828 | each POP loads its own pair with the top word and changes no other register, memory or the interrupt switch |
| CpuLaws.PushPopPair | src/cpu_ops.cpp:690-709 | PUSH of any pair, well-nested code that keeps the other registers, POP of that pair: every register and flag is as before |
| CpuLaws.FlagLayout | src/cpu.cpp:23-53 | Z, N, H and C from the top bit of F down, then the low nibble |
| CpuLaws.InterruptSwitch | src/cpu_ops.cpp:806-815 | RETI (678-687) and EI switch interrupts on, DI off, RET and every other opcode leave them |
| CpuLaws.CallTargets | src/cpu_ops.cpp:642-648 | CALL goes to the word behind it, low byte first, RST to eight times its middle octal digit |
| CpuLaws.JumpsForward | src/cpu_ops.cpp:585-595 | a displacement below 128 jumps forward, and not at all with Z |
| CpuLaws.AddIsAdcWithoutCarry | src/cpu_ops.cpp:287-295 | ADD and SUB are ADC and SBC without a carry in |
| CpuLaws.SubUndoesAdd | src/cpu_ops.cpp:395-405 | subtracting what was added gives the accumulator back, the carry out as the borrow |
| CpuLaws.ArithmeticFlags | src/cpu_ops.cpp:287-405 | Z tells whether the result is zero, N whether it was a subtraction; DAA (934-955) keeps N and clears H |
| CpuLaws.ShiftFlags | src/cpu_ops.cpp:730-767 | shifts and rotates set Z by the byte they leave and clear N and H |
| CpuLaws.DecFlags | src/cpu_ops.cpp:466-472 | DEC B: Z by the result, H by the nibble borrow, N set, C kept |
| CpuLaws.StackCosts | src/cpu_ops.cpp:642-709 | a call and its return take 40 cycles, a push and its pop 28 |
| CpuLaws.OtherCosts | src/cpu_ops.cpp:730-767 | restarts (859-866) and memory shifts take 16 cycles, arithmetic on memory (287-405) 8, DAA (934-955) 4 |
| CpuChains.DecimalAdd | src/cpu_ops.cpp:934-955 | ADC then DAA adds two-digit decimal numbers with carry |
| CpuChains.DecimalSub | src/cpu_ops.cpp:934-955 | SBC then DAA subtracts them with borrow |
| CpuChains.ChainBalance | src/cpu_ops.cpp:321-331 | a chain of any length adds or subtracts whole numbers, exact with its final carry |
| CpuChains.ChainIsModular | src/cpu_ops.cpp:395-405 | its bytes are the result modulo 100^n or 256^n and C tells whether it left that range |
| CpuChains.RotateLeftDoubles | src/cpu_ops.cpp:730-741 | an RL sweep doubles an n-byte number plus carry |
| CpuChains.RotateRightHalves | src/cpu_ops.cpp:756-767 | an RR sweep halves it with the carry on top |
| CpuChains.RotateRoundTrip | src/cpu_ops.cpp:730-767 | RL sweep then RR sweep restores every byte and the carry |
| CpuChains.ShiftLeftDoubles | src/cpu_ops.cpp:902-912 | SLA then RL doubles |
| CpuChains.ShiftRightHalves | src/cpu_ops.cpp:793-803 | SRL then RR halves, carry is the remainder |
| CpuChains.ArithmeticShiftHalves | src/cpu_ops.cpp:986-997 | SRA then RR is floor division of a two's complement number |
| CpuProgram.LoopRunsChain | src/cpu_jumptable.cpp:36-50 | a nine-byte machine-code loop run by the main loop leaves exactly the chain's bytes and carry and changes no other memory |
| CpuProgram.ProgramComputes | src/cpu_jumptable.cpp:36-50 | that program computes the n-byte decimal or binary sum or difference in place, in 60n - 4 clock cycles |
| CpuSweeps.LoopSweeps | src/cpu_jumptable.cpp:36-50 | a six-byte RL or RR loop run by the main loop leaves exactly the swept bytes and carry and changes no other memory |
| CpuSweeps.RotatesInPlace | src/cpu_ops.cpp:730-767 | so it doubles or halves an n-byte number in place, carry in and out |
| CpuSweeps.ShiftsInPlace | src/cpu_ops.cpp:793-803 | with SLA, SRL or SRA in front of the loop (902-912, 986-997) the run doubles, halves, or floor-divides a two's complement number in place |
| CpuStack.PushIsCons | src/cpu_ops.cpp:690-696 | a push adds its word on top and moves nothing, wherever SP wraps |
| CpuStack.DropIsTail | src/cpu_ops.cpp:699-709 | a pop reads the top word and uncovers the rest |
| CpuStack.InstrPushes | src/cpu_ops.cpp:642-648 | PUSH, CALL and RST (859-866) store exactly their word |
| CpuStack.StepRefines | src/cpu_ops.cpp:642-709 | every stack instruction and interrupt entry is a step of an abstract LIFO |
| CpuStack.RunRefines | src/cpu_ops.cpp:642-709 | so is every run of such steps |
| CpuStack.MachineRefines | src/cpu_jumptable.cpp:36-50 | any number of main-loop cycles, with the opcodes found at PC and the interrupts taken, refines the LIFO |
| CpuStack.WellNested | src/cpu_ops.cpp:642-687 | in well-nested code each return lands where its call or interrupt left, SP and stack are restored |
| CpuStack.MachineReturnsLand | src/cpu_jumptable.cpp:36-50 | in any main-loop run a return that takes off the word of a call or interrupt goes on behind that call, or where the interrupt struck, with SP as before |
| CpuStack.LowNibbleInvariant | src/cpu.cpp:23-37 | no run of the machine changes the low nibble of F |
| CpuStack.PushPopAf | src/cpu_ops.cpp:690-709 | POP AF undoes PUSH AF across any well-nested code |
| CpuInterrupts.EntryEffect | src/cpu.cpp:174-214 | one entry goes to the lowest pending vector and clears exactly its request |
| CpuInterrupts.EntryWithoutVector | src/cpu.cpp:179-182 | requests from bit 5 up alone push PC and clear IME, and take no vector |
| CpuInterrupts.ServiceOrder | src/cpu.cpp:174-214 | with IME enabled in between, entries are ascending and serve exactly the enabled requests, each once |
| CpuInterrupts.NoRequestLost | src/cpu.cpp:179-212 | a request stays until it is served, whatever devices raise meanwhile |
| TimeDecoupling.MainLoop.DoMachineCycle | src/cpu_jumptable.cpp:2085-2091 | the loop's end with its offset refines a round on values |
| TimeDecoupling.DecouplingIsInvisible | src/cpu_jumptable.cpp:2085-2091 | every instruction sees the same CPU and device state, at the same time, as when waiting after each one, for devices whose wake-ups come from their own state |
| TimeDecoupling.TimeIsCost | src/cpu_jumptable.cpp:2085-2091 | kernel time plus offset is the sum of all costs |
| TimeDecoupling.Overshoot | src/cpu_jumptable.cpp:2088-2090 | a pending wake-up is overshot by at most the instruction in flight |
| CpuClock.OvershootInCycles | src/cpu_jumptable.cpp:2085-2091 | on the modelled CPU that is at most 24 cycles, after any number of rounds |
| CpuClock.TimerIsDecoupled | src/timer.cpp:28-39 | the CPU with a timer whose period follows the stores to TAC is a platform on which decoupling is invisible |
| CpuClock.LowNibbleIsZero | src/reg_file.h:123 | from power-on, among devices that raise interrupts, the low nibble of F is zero before every instruction |
| Banking.RegistersAreLastWrites | src/cartridge.cpp:218-227 | each register is the last write of its window, for every history |
| Banking.HistorySpecification | src/cartridge.cpp:218-237 | ROM bank, RAM bank and enable are one function of the last writes; the bank is 1..127 and never 0x20, 0x40, 0x60; both switches are in range |
| Banking.EnableMask | src/cartridge.cpp:220 | RAM is enabled by the mask 0xA |
| Banking.LoadsEverything | src/generic_memory.cpp:40-60 | loading fills the memory exactly if the rest of the file fits or the offset is 0 |
| Banking.LongFileIsCut | src/generic_memory.cpp:50-51 | a concrete file of which nothing is loaded |
| Cartridge.LoadFromFile | src/generic_memory.cpp:40-63 | which bytes come from the file and which stay, and when the read fails |
| Cartridge.BankSwitchedMem.DoBankSwitch | src/cartridge.cpp:30-34 | the mapped bank is always a bank |
| Cartridge.BankSwitchedMem.Write | src/cartridge.cpp:40-54 | one byte of the mapped bank changes |
| Cartridge.Mbc1.constructor | src/cartridge.cpp:186-205 | boot ROM over the game's start, upper banks in place, for games and boot files of any length the original accepts |
| Cartridge.Mbc1.WriteRom | src/cartridge.cpp:212-237 | every register write extends the history and keeps both banks in step with it |
| Cartridge.Mbc1.ReadRom | src/cartridge.cpp:238-253 | a read gives file[bank*0x4000 + a%0x4000]; a traced data read marks that very offset |
| Cartridge.Mbc1.GetDirectMemPtr | src/cartridge.cpp:109-120 | the address in the lower bank's own bytes, and never while tracing |
| Cartridge.Mbc1.UnmapBootRom | src/cartridge.cpp:122-124 | afterwards the mapped memory is the file |
| Cartridge.Mbc1.WriteRam | src/cartridge.cpp:256-260 | only enabled RAM changes, in the selected bank |
| Cartridge.RomPort.ReadBus | src/cpu.cpp:75-95 | cached pointer and bus agree before and after the unmap, and no data read escapes the tracer |
| Tracer.SymfileTracer.TraceAccess | src/symfile_tracer.cpp:54-56 | marks one byte of the bank |
| Tracer.SymfileTracer.DumpBank | src/symfile_tracer.cpp:31-51 | after a bank everything below its end is printed as maximal runs |
| Tracer.SymfileTracer.DumpTrace | src/symfile_tracer.cpp:29-52 | the runs are sorted, disjoint, maximal within banks and stand for exactly the marks |
| Tracer.DumpRoundTrip | src/symfile_tracer.cpp:29-56 | marking every byte of every dumped run, one at a time through bank and address, turns cleared marks into the access set |
| Tracer.SymfileTracer.Remark | src/symfile_tracer.cpp:18-20 | a tracer that is cleared and then told of every byte of a dump holds the dumped access set |
| Tracer.DumpIsMinimal | src/symfile_tracer.cpp:29-52 | no list of in-bank runs for the same marks is shorter |
| Bus.DecodeFinds | src/bus.cpp:35-41 | with disjoint ranges the slave of an address is found wherever it is registered |
| Bus.OrderIsIrrelevant | src/bus.cpp:23-44 | decoding does not depend on registration order |
| Bus.Bus.AddBusSlave | src/bus.cpp:23-30 | appends one slave |
| Bus.Bus.FindSlave | src/bus.cpp:32-44 | the loop finds the first holder and the relative address |
| GbTop.MapIsDisjoint | src/gb_top.cpp:52-66 | no two slaves of the concrete map overlap |
| GbTop.MapDecodes | src/gb_top.cpp:52-66 | which slave, or none, every one of the 65536 addresses reaches |
| GbTop.GbTop.constructor | src/gb_top.cpp:14-66 | echo RAM is the work RAM's own array, the timer holds the interrupt flags themselves, and the slaves are those of the map |
| GbTop.GbTop.Read | src/bus.cpp:32-44 | what each kind of address reads, plain memory through decoding and the slave's own array; unmapped and disabled targets leave the buffer |
| GbTop.GbTop.WriteIo | src/io_registers.cpp:110-173 | the IO block after a store, sound switched off or on |
| GbTop.GbTop.Write | src/bus.cpp:32-44 | for every address what a store changes (a plain cell under all its addresses, bank registers, cartridge RAM, timer, serial control, the IO block) and that it changes nothing else |
| GbTop.GbTop.StoreLoad | src/bus.cpp:32-44 | the same over the bus, a store followed by a load |
| GbTop.GbTop.EchoAgrees | src/gb_top.cpp:17-18 | a and a+0x2000 decode to different slaves, and the byte behind both is one, in every state |
| GbTop.GbTop.DmaTransfer | src/io_registers.cpp:14-34 | OAM gets the 160 old source bytes, also when the source is OAM or echo RAM; no other memory changes |
| Timing.Timer.DivLoopRound | src/timer.cpp:20-26 | refines the divider event |
| Timing.Timer.TimerLoopRound | src/timer.cpp:28-39 | the overflow found by comparing bytes is the one from 255 |
| Timing.Timer.Write | src/timer.cpp:41-91 | register writes: DIV resets, TAC selects the period |
| Timing.Timer.WriteRead | src/timer.cpp:41-91 | a register reads back what was stored, DIV zero |
| Timing.TimerClosedForm | src/timer.cpp:28-39 | TIMA and number of overflows after any n enabled ticks |
| Timing.TimerInRun | src/timer.cpp:20-39 | the same over any run without writes, whatever divider ticks come in between |
| Timing.InterruptTimes | src/timer.cpp:28-39 | exactly which ticks request an interrupt, and at what time |
| Timing.DividerClosedForm | src/timer.cpp:20-26 | under any interleaving of threads and writes, DIV counts the multiples of 256 cycles its thread passed since the last reset, modulo 256 |
| Timing.DividerAtTime | src/timer.cpp:20-26 | the same from the times of now and the reset; an instant on such a multiple counts or not, as the threads are ordered |
| Timing.SettingsAreLastWrites | src/timer.cpp:71-91 | TMA and TAC are the last writes', and the period is that of the last write to TAC or, before any, the one it started with, in every run |
| Timing.ClockRates | src/timer.h:16-21 | the periods give the documented rates of the 4194304 Hz clock |
| Timing.TimerMasks | src/timer.cpp:28-39 | enabled by mask 4 of TAC, requested in mask 4 of the flags, reloaded from TMA |
| ShiftRegister.ConstantWidthRuns | src/apu.cpp:110-113 | at constant width no run merges two states, leaves the width, or reaches all ones from another state |
| ShiftRegister.SwitchLocksUpIff | src/apu.cpp:229-232 | after a switch from 15 to 7 bits the run locks up exactly if a condition on the bits at the switch holds |
| ShiftRegister.SwitchCanLockUp | src/apu.cpp:110-113 | such a switch two steps after a trigger |
| ShiftRegister.OnlySwitchesLockUp | src/apu.cpp:102-113 | from a trigger, under any sequence of widths, the register is locked up only behind a switch from 15 to 7 bits at which that condition held, and is so eight steps later |
| NoiseChannel.Noise.DoLfsrTicks | src/apu.cpp:102-118 | the register after n steps, and the mean output bit |
| NoiseChannel.Noise.WriteDataIntoStream | src/apu.cpp:120-135 | n samples as n value steps; nothing when the length has run out |
| NoiseChannel.Noise.Trigger | src/apu.cpp:437-446 | length, volume and status bit from the registers, the shift register restarted at zero, the cycle counter untouched |
| NoiseChannel.StepConservation | src/apu.cpp:127-132 | steps times period plus counter is all cycles counted |
| NoiseChannel.StepCount | src/apu.cpp:127-132 | steps are (c0+95n)/P, the counter is the remainder, the register has made exactly those steps |
| NoiseChannel.ShiftHalvesRate | src/apu.cpp:229-232 | one unit more in the shift field of NR43 halves the steps that any number of samples make |
| NoiseChannel.LevelInRange | src/apu.cpp:102-118 | a sample is within 0..1 exactly if a step is due or the held sum is at most 1 |
| NoiseChannel.LevelCanExceedOne | src/apu.cpp:102-108 | a sample of level 5 after two settings of NR43, the second without a step due |
| NoiseChannel.LevelsStayInRange | src/apu.cpp:120-135 | at fixed settings all samples are in range |
| Gdb.HexByteReads | src/gdb_server.cpp:137 | two printed digits read back as the byte |
| Gdb.HexByteIsLower | src/gdb_server.cpp:137 | the printed digits are lower-case |
| Gdb.AnyNumberReads | src/gdb_server.cpp:254-255 | a number of any length printed in hexadecimal reads back whole up to the largest signed 32-bit one and throws above |
| Gdb.LibraryNumbers | src/gdb_server.cpp:95-96 | how the checksum number is read when the two characters are not plain digits |
| Gdb.GetChecksumStr | src/gdb_server.cpp:131-138 | two digits of the 32-bit sum of signed characters modulo 256 |
| Gdb.Packetify | src/gdb_server.cpp:141-146 | prefix, body, mark, checksum |
| Gdb.RecvMsgBlocking | src/gdb_server.cpp:63-109 | the receiver's verdict on any bytes: wait, exception, single character or message |
| Gdb.FirstByte | src/gdb_server.cpp:68-86 | what a first byte other than the dollar sign decides |
| Gdb.PrefixWaits | src/gdb_server.cpp:87-98 | of a packet still on its way the receiver says nothing |
| Gdb.FrameVerdict | src/gdb_server.cpp:63-109 | a framed body is accepted exactly if the checksum digits are its own, else rejected |
| Gdb.RoundTrip | src/gdb_server.cpp:141-146 | a printed packet is received as its body exactly if the body has no mark, no zero byte and at most 4094 characters |
| Gdb.OneChangeIsRejected | src/gdb_server.cpp:100-106 | every change of one body character to another allowed one is rejected |
| Gdb.StripIsExact | src/gdb_server.cpp:115-116 | the strip gives the body exactly if the second checksum character is not zero |
| Gdb.ShortChecksum | src/gdb_server.cpp:115-116 | a concrete accepted message that loses a character |
| Gdb.CmdReadMem | src/gdb_server.cpp:250-263 | the packet sent, or the exception |
| Gdb.ReadsInTurn | src/gdb_server.cpp:256-259 | a read is the read of its first bytes and then of those behind them, from the address up |
| Gdb.CmdWriteMem | src/gdb_server.cpp:266-279 | memory after the writes, cut off at the first number that throws |
| Gdb.WriteBack | src/gdb_server.cpp:250-279 | writing back what a read of any length printed changes nothing |
| Gdb.ReadBack | src/gdb_server.cpp:250-279 | reading back a write gives its digits exactly if no cell got two different bytes, always up to 64 KiB |
| Gdb.OtherCellsKept | src/gdb_server.cpp:272-275 | a write, complete or cut off, leaves every cell it does not address alone |
| Bits.SetBitFrame | src/utils.h:27-35 | the given digit is written and every other one kept |
| Bits.DigitIsMask | src/utils.h:22-25 | a binary digit is what the mask test finds |
| Bits.SetBitIsMask | src/utils.h:27-35 | writing a digit is what the masks compute |

## Left out

- GbTop.GbTop.DmaTransfer: page 0xFF, whose source would be device registers and unmapped addresses, is excluded.
- GbTop.GbTop.Read: what 0xFF00 answers is left open, as it depends on the keys held; 0xFF03, on which the original asserts, has no clause.
- GbTop.GbTop.Write: a store to 0xFF46 is the separate method DmaTransfer; the serial transfer that a store to 0xFF02 starts, and the signals that stores to 0xFF50 and to sound registers raise, are not modelled.
- Cpu.Cpu.InstrDecB: of the seven registers only B, the loop counter of the machine-code program.
- Cpu.Cpu.DoMachineCycle: opcodes outside the model (register and immediate operands of the arithmetic, loads, logic, bit operations, HALT) are reported as unknown; the model has the opcodes the proofs run.
- CpuInterrupts.ServiceOrder: enabled requests in bits 5-7 push PC without a vector; the step models this, the order speaks of the five with a vector.
- CpuStack.WellNested: code between the stack instructions is any work that keeps SP and the live stack, not a particular opcode.
- CpuState.CycleCost: opcodes outside the model.
- Frame.ClosedForms: LY itself after the CPU has written it; the value LY has between two stores of one wake-up is not a wait point.
- Frame.WindowCounter: the counter starts at 0, while the original leaves it unset in the first frame.
- Timing.DividerAtTime: when a reset or the present falls on the very cycle of an increment, either order of the two threads is allowed.
- PpuDraw.Ppu.DrawLine: the sprite layer is cleared by the game window after each frame, which is not modelled; the result is given over whatever the layer held.
- TimeDecoupling.DecouplingIsInvisible: HALT, and stores that move the wake-up already pending or add an earlier one, as the start of a serial transfer does.
- CpuClock.OvershootInCycles: opcodes outside the model count as a four-cycle instruction without effect.
- CpuClock.TimerIsDecoupled: TIMA, TMA, TAC and the request only, each as a memory cell; the resetting store to DIV is part of Timing.
- ExtendedWindow.ExtGameWindow.DrawToScreen: with the display off the window, not the texture, is cleared to red.
- NoiseChannel.Noise.WriteDataIntoStream: the levels before the high-pass filter, the volume and the mixing into the stream.
- Gdb.RecvMsgBlocking: sockets that deliver fewer than the requested bytes or fail; the split of the body into a command uses a regular expression that is not part of this model.
- Controllers other than MBC1, debug writes into ROM, save files, and the bank numbers kept only for display.
- Joypad keys, and the end of a serial transfer.
- Sound synthesis in floating point, high-pass filter, sweep, envelopes and length counters; the level of a noise sample is a real number.
- The text format of trace symbols; a symbol is its bank, address and length.
- Windows, textures, key polling, options, breakpoints and register commands of the debugger.
