# CHIP-8 interpreter core in Dafny

This project models the virtual machine of the EmuCHIP-8 emulator, as implemented in
`Cpu.cpp` and `Cpu.h`, and proves properties of that model.

## Machine state

The machine state is the record `CpuDefs.Cpu`:

- a 4096-byte `memory`;
- sixteen byte registers `V0`–`VF`;
- the 16-bit address register `I` and program counter `pc`;
- the call stack of return addresses;
- the delay and sound timers;
- the 64 × 32 monochrome display, packed eight pixels per byte with the most significant bit leftmost;
- the sixteen key flags.

Every operation is a pure function from one state to the next. They live in module `Interpreter`:

- `Execute`: fetch, decode and execute one instruction, returning the status code with the new state;
- `Init`;
- `UpdateTimers`;
- `LoadImage`: the font and program placement of `LoadMemory`.

`Screen.RenderTo` turns the display into the 32-bit frame.

## Opcodes and the display

Opcodes are decoded into the datatype `Opcodes.Instr`, following the switch of `Execute` family by family. An opcode the switch rejects decodes to `None`. `Encode` is the inverse of `Decode`.

Bytes are `bv8`, and `I` and `pc` are `bv16`. So the source's `unsigned char` and `unsigned short` wrap-around and its bit operations are the bit-vector operators.

The draw instruction DXYN is modelled the way the source does it: a byte-level XOR loop, `Screen.DrawSprite`. It is proved against `Screen.Covers`, an independent pixel-level description of the pixels a sprite touches:

- every covered pixel flips;
- no other pixel changes;
- VF becomes 1 exactly when a covered pixel was lit.

## Modules

The modules follow the structure of the program:

- `CpuDefs`: the constants and field macros of `Cpu.h`, and the state.
- `Opcodes`: decoding and encoding.
- `Screen`: the display, the draw loop and rendering.
- `Interpreter`: the operations of `Cpu.cpp`.
- `ArithProperties`, `InterpreterProperties`, `FxProperties` and `SystemProperties`: the properties of the operations.

## Model

| member | source | states |
|---|---|---|
| CpuDefs.Nibble | EmuCHIP-8/Cpu.h:10 | GET_NIBBLE yields a hexadecimal digit, 0 to 15 |
| CpuDefs.NibblesReassemble | EmuCHIP-8/Cpu.h:10 | the four GET_NIBBLE digits of an opcode, shifted back into place, reassemble the opcode, so digit k is bits 4k to 4k+3 |
| CpuDefs.ByteDigits | EmuCHIP-8/Cpu.h:9-10 | each GET_BYTE byte is its two GET_NIBBLE digits side by side |
| CpuDefs.LowByteValue | EmuCHIP-8/Cpu.h:9-10 | GET_BYTE(op, 0) as a number is 16 · GET_NIBBLE(op, 1) + GET_NIBBLE(op, 0) |
| CpuDefs.Join | EmuCHIP-8/Cpu.cpp:37 | the fetched opcode has memory[pc] as its high byte and memory[pc + 1] as its low byte |
| CpuDefs.BytesDetermine | EmuCHIP-8/Cpu.h:9 | two opcodes with the same two GET_BYTE bytes are equal |
| CpuDefs.NNN | EmuCHIP-8/Cpu.h:11 | GET_NNN is below 0x1000, and the top digit of the opcode together with NNN gives back the opcode |
| CpuDefs.PixelByteInRange | EmuCHIP-8/Cpu.h:14-19 | DISPLAY_SIZE is 256, and every pixel index below W · H lies in byte i / 8 inside the display |
| CpuDefs.FontBelowProgram | EmuCHIP-8/Cpu.h:15-16 | the font region 0x50 to 0xA0 ends below MEMORY_BEGIN = 0x200 |
| Opcodes.DigitsRoundTrip | EmuCHIP-8/Cpu.cpp:39-43 | the digit fields extracted from an opcode and the opcode determine each other |
| Opcodes.ArithCodeRoundTrip | EmuCHIP-8/Cpu.cpp:105-160 | the inner switch of family 8 accepts exactly the last digits 0 to 7 and E, and maps them one to one onto the nine register operations |
| Opcodes.MiscCodeRoundTrip | EmuCHIP-8/Cpu.cpp:245-308 | the inner switch of family F maps the nine low bytes 07, 0A, 15, 18, 1E, 29, 33, 55, 65 one to one onto its operations |
| Opcodes.OpcodeFields | EmuCHIP-8/Cpu.cpp:39-51 | `opcode & 0xF000`, the low digit, the low byte and the comparisons with 00E0 and 00EE read the same digits the decoder uses |
| Opcodes.DecodeUnsupported | EmuCHIP-8/Cpu.cpp:48-312 | an opcode is rejected exactly when it is: 0NNN other than 00E0/00EE; 5XYN or 9XYN with N ≠ 0; 8XYN with N outside 0 to 7 and E; EXNN other than 9E/A1; or FXNN outside the nine supported low bytes |
| Opcodes.DispatchSpell | EmuCHIP-8/Cpu.cpp:48-312 | the switch dispatches the digits of every instruction back to that instruction |
| Opcodes.SpellDispatch | EmuCHIP-8/Cpu.cpp:48-312 | the digits of whatever the switch dispatches to are the digits it was given |
| Opcodes.EncodeDecode | EmuCHIP-8/Cpu.cpp:48-312 | every supported opcode decodes, and encoding the result gives the opcode back |
| Opcodes.DecodeEncode | EmuCHIP-8/Cpu.cpp:48-312 | every instruction survives encoding then decoding |
| Screen.XorBit | EmuCHIP-8/Cpu.cpp:199 | a pixel column of `a ^ b` is set exactly when one of a and b sets it |
| Screen.ShiftRightBit | EmuCHIP-8/Cpu.cpp:220 | `s >> (Vx % 8)` moves sprite column c − o to screen column c |
| Screen.ShiftLeftBit | EmuCHIP-8/Cpu.cpp:221 | `s << (8 − Vx % 8)` truncated to a byte moves sprite column c + 8 − o to column c, and leaves nothing when Vx is a multiple of 8 |
| Screen.Blank | EmuCHIP-8/Cpu.cpp:53-54 | the cleared display has every pixel dark |
| Screen.PixelColor | EmuCHIP-8/Cpu.cpp:411 | `0xFFFFFF * ((b >> (7 - c)) & 1)` is white exactly when column c of b is set, and black otherwise |
| Screen.RenderTo | EmuCHIP-8/Cpu.cpp:403-412 | the frame has W · H entries; pixel p is 0xFFFFFF when bit 7 − p % 8 of display byte p / 8 is set, else 0 |
| Screen.PutAt | EmuCHIP-8/Cpu.cpp:197-200 | `put` XORs b into display byte a and leaves every other byte alone |
| Screen.PutHit | EmuCHIP-8/Cpu.cpp:197-200 | `put` returns `old & b`, the set bits of the byte it turns off |
| Screen.SameByte | EmuCHIP-8/Cpu.cpp:220-221 | the two `put` calls of a row hit the same display byte exactly when VX is a multiple of 8 |
| Screen.DrawRowPixel | EmuCHIP-8/Cpu.cpp:220-221 | one loop iteration flips exactly the pixels that row k of the sprite covers, with the row and columns wrapped |
| Screen.DrawRowHit | EmuCHIP-8/Cpu.cpp:220-221 | one iteration reports a nonzero hit exactly when the row covers a lit pixel |
| Screen.CoversStep | EmuCHIP-8/Cpu.cpp:219 | the pixels an n-row sprite covers are those of its first n − 1 rows or those of row n − 1, never both |
| Screen.DrawSpritePixel | EmuCHIP-8/Cpu.cpp:219-221 | the whole draw loop flips pixel p exactly when the sprite covers p |
| Screen.DrawSpriteWitness | EmuCHIP-8/Cpu.cpp:219-222 | a nonzero collision byte names a covered pixel that was lit |
| Screen.DrawSpriteHitFrom | EmuCHIP-8/Cpu.cpp:219-222 | a covered pixel that was lit makes the collision byte nonzero |
| Screen.DrawSpriteEffect | EmuCHIP-8/Cpu.cpp:197-222 | the draw loop flips exactly the covered pixels, and its collision byte is nonzero exactly when a covered pixel was lit |
| Screen.DrawTwice | EmuCHIP-8/Cpu.cpp:197-222 | drawing the same sprite twice at the same place restores the display |
| Interpreter.Code | EmuCHIP-8/Cpu.cpp:30-34 | only success returns 0, and every code lies between −3 and 0 |
| Interpreter.CodeRoundTrip | EmuCHIP-8/Cpu.cpp:30-34 | reading a code back as a status inverts `Code`: 0 is success, −1 an unsupported opcode, −2 stack underflow, −3 stack overflow, and no other integer is a status |
| Interpreter.CodesDiffer | EmuCHIP-8/Cpu.cpp:30-34 | the four statuses return four different codes, so a caller can tell the errors apart |
| Interpreter.Fetch | EmuCHIP-8/Cpu.cpp:37 | the opcode's high byte is memory[pc] and its low byte is memory[pc + 1] |
| Interpreter.IndexPlus | EmuCHIP-8/Cpu.cpp:276 | `I += Vx` is the exact sum cut to sixteen bits, with no 12-bit mask |
| Interpreter.GlyphAt | EmuCHIP-8/Cpu.cpp:282 | `FONT_BEGIN + Vx * 5` is computed without wrap-around |
| Interpreter.Step | EmuCHIP-8/Cpu.cpp:48-312 | every decoded instruction keeps the state well formed: the sizes of memory, registers, display and keys are fixed, and the call depth stays at most 16 |
| Interpreter.Execute | EmuCHIP-8/Cpu.cpp:35-315 | one execution step keeps the state well formed, with the call depth at most 16 |
| Interpreter.LoadImage | EmuCHIP-8/Cpu.cpp:321-358 | loading keeps the state well formed |
| ArithProperties.ArithWrites | EmuCHIP-8/Cpu.cpp:105-156 | for X ≠ F, 8XYN writes VX with the result of the operation, VF with its flag if it has one, and no other register |
| ArithProperties.ArithIntoFlag | EmuCHIP-8/Cpu.cpp:128-156 | for X = F, the write of VX comes last and overwrites the flag; 8XY4 and 8XY5 compute it from the flag they just wrote; V0 to VE are unchanged |
| ArithProperties.LogicBits | EmuCHIP-8/Cpu.cpp:108-126 | 8XY0 to 8XY3 set no flag, and each bit of the new VX is the bit of VY, or the OR, AND or XOR of the bits of VX and VY |
| ArithProperties.AddCarry | EmuCHIP-8/Cpu.cpp:128-132 | 8XY4 gives VX + VY mod 256, and its flag is 1 exactly when VX + VY > 255 |
| ArithProperties.SubBorrow | EmuCHIP-8/Cpu.cpp:134-138 | 8XY5 gives VX − VY mod 256, and its flag is 1 exactly when VY ≤ VX |
| ArithProperties.SubReverseBorrow | EmuCHIP-8/Cpu.cpp:146-150 | 8XY7 gives VY − VX mod 256, and its flag is 1 exactly when VX ≤ VY |
| ArithProperties.ShiftRightHalves | EmuCHIP-8/Cpu.cpp:140-144 | 8XY6 gives VY / 2 whatever VX was, and its flag is VY mod 2 |
| ArithProperties.ShiftLeftDoubles | EmuCHIP-8/Cpu.cpp:152-156 | 8XYE gives 2 · VY mod 256 whatever VX was, and its flag is 1 exactly when 2 · VY > 255, the old bit 7 |
| ArithProperties.ShiftIgnoresOldVX | EmuCHIP-8/Cpu.cpp:140-156 | for X ≠ Y, two register files that differ only in VX give the same result under 8XY6 and 8XYE |
| InterpreterProperties.RegisterFrame | EmuCHIP-8/Cpu.cpp:95-185 | 6XNN, 7XNN, 8XYN, ANNN and CXNN change only the registers and I, before pc moves on |
| InterpreterProperties.DrawFrame | EmuCHIP-8/Cpu.cpp:187-225 | DXYN changes only the display and VF, before pc moves on: V0 to VE keep their values |
| InterpreterProperties.MiscEffectFrame | EmuCHIP-8/Cpu.cpp:248-303 | the FXNN operations other than FX0A leave pc, the stack, the display and the keys alone, before pc moves on |
| InterpreterProperties.MiscFrame | EmuCHIP-8/Cpu.cpp:245-308 | every FXNN leaves the stack, the display and the keys alone |
| InterpreterProperties.StepKeepsStack | EmuCHIP-8/Cpu.cpp:81-303 | every decoded instruction outside 00E0, 00EE, 1NNN, 2NNN and BNNN succeeds and keeps the stack |
| InterpreterProperties.StepStatus | EmuCHIP-8/Cpu.cpp:58-79 | a decoded instruction fails only with −2 (00EE on an empty stack, exactly) or −3 (2NNN at depth ≥ 16, exactly); a failure changes nothing; 2NNN pushes pc + 2; 00EE pops the top; everything else keeps the stack |
| InterpreterProperties.ReturnPops | EmuCHIP-8/Cpu.cpp:58-63 | 00EE on a non-empty stack succeeds, sets pc to the top address, pops it and changes nothing else |
| InterpreterProperties.ExecuteStatus | EmuCHIP-8/Cpu.cpp:35-315 | Execute returns −1 exactly for the unsupported opcodes, −2 exactly for 00EE on an empty stack, and −3 exactly for 2NNN at depth 16; any nonzero status leaves the whole state unchanged |
| InterpreterProperties.CallThenReturn | EmuCHIP-8/Cpu.cpp:58-79 | below depth 16, 2NNN jumps to NNN one level deeper, and a following 00EE returns to pc + 2 with the stack as it was |
| InterpreterProperties.SkipMoves | EmuCHIP-8/Cpu.cpp:82 | `cond ? pc += 4 : pc += 2` moves pc by four exactly when cond holds and by two exactly when it does not, changing nothing else |
| InterpreterProperties.SkipFrame | EmuCHIP-8/Cpu.cpp:81-238 | every skip instruction succeeds, changes only pc, and adds four exactly when its condition holds and two otherwise |
| InterpreterProperties.SkipImmediate | EmuCHIP-8/Cpu.cpp:81-87 | 3XNN skips exactly when VX = NN; 4XNN skips exactly when VX ≠ NN |
| InterpreterProperties.SkipRegisters | EmuCHIP-8/Cpu.cpp:89-167 | 5XY0 skips exactly when VX = VY; 9XY0 skips exactly when VX ≠ VY |
| InterpreterProperties.SkipKeys | EmuCHIP-8/Cpu.cpp:230-238 | EX9E skips exactly when key VX is down; EXA1 skips exactly when it is up |
| InterpreterProperties.MiscAdvances | EmuCHIP-8/Cpu.cpp:248-303 | every FXNN other than FX0A moves pc on by exactly two |
| InterpreterProperties.MiscStepAdvances | EmuCHIP-8/Cpu.cpp:248-303 | executing an FXNN other than FX0A moves pc on by exactly two |
| InterpreterProperties.DrawAdvances | EmuCHIP-8/Cpu.cpp:223 | DXYN moves pc on by exactly two |
| InterpreterProperties.RegisterAdvances | EmuCHIP-8/Cpu.cpp:95-185 | 6XNN, 7XNN, 8XYN, ANNN and CXNN move pc on by exactly two |
| InterpreterProperties.AdvancesByTwo | EmuCHIP-8/Cpu.cpp:95-303 | every instruction other than the control transfers, the skips and FX0A moves pc on by exactly two |
| InterpreterProperties.JumpOffsetTarget | EmuCHIP-8/Cpu.cpp:174-176 | BNNN sets pc to V0 + NNN without masking, so the target may lie beyond 0xFFF |
| InterpreterProperties.SetRegWrites | EmuCHIP-8/Cpu.cpp:96 | writing V[x] sets VX and leaves every other register alone |
| InterpreterProperties.AddImmNoCarry | EmuCHIP-8/Cpu.cpp:100-103 | 7XNN makes VX = VX + NN mod 256 and leaves every other register alone, VF included when X ≠ F |
| InterpreterProperties.RandomMasked | EmuCHIP-8/Cpu.cpp:178-185 | after CXNN each bit of VX is set exactly when it is set both in the random byte and in NN, and every other register keeps its value |
| InterpreterProperties.LoadAndIndex | EmuCHIP-8/Cpu.cpp:95-172 | 6XNN sets VX to NN and changes no other register or I; ANNN sets I to NNN and keeps the registers |
| InterpreterProperties.ArithStep | EmuCHIP-8/Cpu.cpp:105-161 | 8XYN changes only the registers, as the register operations compute them from the old values, and moves pc on by two |
| InterpreterProperties.ClearAndJump | EmuCHIP-8/Cpu.cpp:53-72 | 00E0 darkens every pixel, changes nothing else and moves pc on by two; 1NNN succeeds, sets pc to NNN and changes nothing else |
| InterpreterProperties.DrawEffect | EmuCHIP-8/Cpu.cpp:187-225 | DXYN flips exactly the covered pixels; VF is 1 exactly when a covered pixel was lit and 0 otherwise; V0 to VE keep their values; pc moves on by two |
| InterpreterProperties.DrawTwiceRestores | EmuCHIP-8/Cpu.cpp:187-225 | executing the same DXYN twice, with X, Y ≠ F, restores the display |
| InterpreterProperties.FirstKeyFromFinds | EmuCHIP-8/Cpu.cpp:254-262 | the scan from key i finds the lowest pressed key at or above i, or reports that none is pressed |
| InterpreterProperties.WaitKeyEffect | EmuCHIP-8/Cpu.cpp:253-263 | FX0A stores the lowest pressed key in VX and moves pc on by two, changing no other register and nothing else; with no key pressed it changes nothing, pc included |
| FxProperties.GetDelayEffect | EmuCHIP-8/Cpu.cpp:248-251 | FX07 copies the delay timer into VX and changes nothing else but pc |
| FxProperties.SetTimerEffect | EmuCHIP-8/Cpu.cpp:265-273 | FX15 and FX18 copy VX into the delay and sound timers and change nothing else but pc |
| FxProperties.DelayRoundTrip | EmuCHIP-8/Cpu.cpp:248-268 | FX15 followed by FY07 leaves VY holding the old VX |
| FxProperties.AddIndexEffect | EmuCHIP-8/Cpu.cpp:275-279 | FX1E adds VX to I modulo 2^16, then sets VF to 1 exactly when the new I exceeds 0xFFF and to 0 otherwise |
| FxProperties.AddIndexFrame | EmuCHIP-8/Cpu.cpp:275-279 | FX1E changes only I, VF and pc |
| FxProperties.FontCharAddress | EmuCHIP-8/Cpu.cpp:281-284 | FX29 sets I to 0x50 + 5 · VX and changes nothing else but pc |
| FxProperties.GlyphAddress | EmuCHIP-8/Cpu.cpp:282 | for a digit v < 16 the glyph address is 0x50 + 5v as a number |
| FxProperties.GlyphRows | EmuCHIP-8/Cpu.cpp:324-345 | with the font loaded, the glyph address of digit v holds that digit's five font rows |
| FxProperties.FontCharGlyph | EmuCHIP-8/Cpu.cpp:281-284 | with the font loaded and VX < 16, FX29 points I at the five rows of VX's glyph |
| FxProperties.WriteBcdDigits | EmuCHIP-8/Cpu.cpp:287-289 | the three bytes written are decimal digits with 100a + 10b + c = v, and nothing else changes |
| FxProperties.BcdEffect | EmuCHIP-8/Cpu.cpp:286-291 | FX33 stores VX's hundreds, tens and units at I, I + 1, I + 2, each below 10; it changes no other byte and not I |
| FxProperties.SaveRegistersEffect | EmuCHIP-8/Cpu.cpp:294-295 | the store loop writes V0 to V(count−1) at base onward and nothing else |
| FxProperties.LoadRegistersEffect | EmuCHIP-8/Cpu.cpp:300-301 | the load loop reads count bytes from base into V0 onward and keeps the other registers |
| FxProperties.SaveEffect | EmuCHIP-8/Cpu.cpp:293-297 | FX55 writes V0 to VX at I to I + X, changes no other byte and nothing else but pc, and not I |
| FxProperties.LoadEffect | EmuCHIP-8/Cpu.cpp:299-303 | FX65 reads I to I + X into V0 to VX, keeps the registers above VX, and changes nothing else but pc, and not I |
| FxProperties.SaveThenLoad | EmuCHIP-8/Cpu.cpp:293-303 | FX55, any change to the registers, then FX65 with the same X and I: V0 to VX are restored and the registers above VX are left as the change made them |
| SystemProperties.TickCount | EmuCHIP-8/Cpu.cpp:391-397 | one tick lowers a running timer by one and keeps a stopped one at zero |
| SystemProperties.TicksCount | EmuCHIP-8/Cpu.cpp:391-397 | after k calls of UpdateTimers each timer is max(t − k, 0), the two timers independently, and nothing else changes |
| SystemProperties.TimersRunOut | EmuCHIP-8/Cpu.cpp:391-397 | after as many ticks as the larger timer value both timers are zero, and further ticks change nothing |
| SystemProperties.InitState | EmuCHIP-8/Cpu.cpp:364-386 | Init zeroes memory, registers and keys, darkens the display, sets pc = 0x200 and I and both timers to 0, and keeps the stack |
| SystemProperties.InitForgets | EmuCHIP-8/Cpu.cpp:364-386 | Init's result depends only on the stack, and Init is idempotent |
| SystemProperties.RenderAfterInit | EmuCHIP-8/Cpu.cpp:403-412 | the frame rendered right after Init is all black |
| SystemProperties.SpliceAt | EmuCHIP-8/Cpu.cpp:345 | copying a block into memory writes exactly its span and keeps every other byte |
| SystemProperties.LoadImageFrame | EmuCHIP-8/Cpu.cpp:321-358 | loading reports whether the file opened and changes nothing but memory |
| SystemProperties.LoadedByteAt | EmuCHIP-8/Cpu.cpp:344-353 | the byte loading leaves at any one address is the font byte inside 0x50 to 0xA0; when the file opened, the ROM byte or the trailing 0xFF in the program region; else the old byte |
| SystemProperties.LoadImageLayout | EmuCHIP-8/Cpu.cpp:344-353 | after loading, memory holds the font at 0x50 in any case; when the file opened it also holds the ROM from 0x200 and one extra 0xFF byte right after it; every other byte is kept |
| SystemProperties.LoadImageFont | EmuCHIP-8/Cpu.cpp:344-349 | the 80-byte font is at 0x50 even when the file failed to open |
| SystemProperties.BootFetches | EmuCHIP-8/Cpu.cpp:352-380 | after Init and a successful load, pc is 0x200 and the first fetch decodes to the instruction the first two ROM bytes encode |

## Left out

- `src/main.cpp` is not part of this model. It holds the SDL window, the renderer and the audio, the configuration file, frame pacing and the mapping from input events to `keys`.
- The file reading in `LoadMemory` (`ifstream`, `good()`, `get()`) is replaced by two inputs: a flag saying whether the file opened, and the byte sequence it holds. `LoadImage` requires that the program and its trailing byte fit in memory, because the source does not check this.
- `srand(time(NULL))` and `rand()` in CXNN are replaced by a parameter `rand`, the byte `rand() & 0xFF`. The `RAND_MAX` redefinition is left out with them.
- Accesses the source makes without a bounds check are preconditions, not modelled behaviour:
  - the fetch at pc + 1 (`CanExecute` requires pc < 0xFFF);
  - `keys[Vx]` in EX9E and EXA1 (VX < 16);
  - `memory[I + 2]` in FX33;
  - `memory[I + X]` in FX55 and FX65.
  
  The draw loop masks its memory reads and so needs no such condition.
- The `Cpu` constructor and destructor are empty and are not modelled.
- The stack is `vector<short>`, and the model keeps its elements as 16-bit values. This relies on the conversion of `pc + 2` to `short` and back to `unsigned short` being modular, which C++ before C++20 leaves implementation-defined.
- The two `put` calls of a draw-loop iteration are joined by `|`, so C++ leaves their order unspecified. The model runs the first before the second. The order cannot matter: when both calls address the same byte, the second call's byte is zero.
- Nibble: its contract bounds the digit but does not state `(op >> 4k) & 0xF` with a symbolic shift distance. `NibblesReassemble` states instead that the four digits, shifted back into place, make up the opcode.
- Interpreter.Step: its own contract states only that the state stays well formed. What each instruction does is stated by the lemmas in `InterpreterProperties` and `FxProperties`.
- Interpreter.Execute: its own contract states only that the state stays well formed. The status it returns is stated by `InterpreterProperties.ExecuteStatus`.
- Interpreter.LoadImage: its own contract states only that the state stays well formed. The memory it lays out is stated by `SystemProperties.LoadImageLayout` and `SystemProperties.LoadImageFrame`.
- Details of the code that the model keeps as written:
  - Only the sprite reads of DXYN are masked to twelve bits. `I` is sixteen bits wide: FX1E does not mask it, and BNNN does not mask pc.
  - DXYN wraps the row of every sprite line, `(Vy + n) % H`, and the column of the second byte, `(Vx + 7) % W`.
  - `LoadMemory` stores one byte more than the file holds: the end-of-file value of `get()`, 0xFF, after the last program byte.
  - `Init` leaves the call stack as it was.
