/**
  The interpreter's operations on the machine state: `Execute` (one
  fetch-decode-execute step), `Init`, the font and program placement of
  `LoadMemory`, `UpdateTimers`; `RenderTo` lives with the display in `Screen`.

  Every operation is a pure function from the old state to the new one.
  `Execute` returns the status code together with the new state; on an error
  status the state is the old one, as the source returns before writing
  anything. The random byte of CXNN is a parameter.
 */
module Interpreter {
  import opened CpuDefs
  import opened Screen
  import opened Opcodes

  /** The status `Execute` returns: 0, -1, -2 or -3. */
  datatype Status = Success | UnsupportedOpcode | StackUnderflow | StackOverflow

  /** The integer the source returns for each status. */
  function Code(s: Status): (code: int)
    ensures code == 0 <==> s == Success
    ensures -3 <= code <= 0
  {
    match s
    case Success => 0
    case UnsupportedOpcode => -1
    case StackUnderflow => -2
    case StackOverflow => -3
  }

  /** The status a caller reads back from a returned code, if the code is one of the four. */
  function StatusOf(code: int): Option<Status>
  {
    match code
    case 0 => Some(Success)
    case -1 => Some(UnsupportedOpcode)
    case -2 => Some(StackUnderflow)
    case -3 => Some(StackOverflow)
    case _ => None
  }

  /**
    The codes and their reading are inverse: every status is read back from
    its code, so distinct statuses have distinct codes, and only 0, -1, -2
    and -3 are read as a status at all.
   */
  lemma CodeRoundTrip(s: Status, code: int)
    ensures StatusOf(Code(s)) == Some(s)
    ensures StatusOf(code) == Some(s) ==> Code(s) == code
    ensures StatusOf(code).None? <==> !(-3 <= code <= 0)
  {
  }

  /** Distinct statuses return distinct codes. */
  lemma CodesDiffer(s: Status, t: Status)
    ensures Code(s) == Code(t) ==> s == t
  {
  }

  /** The status and the state after one step. */
  datatype Outcome = Outcome(status: Status, cpu: Cpu)

  /** The opcode at pc, high byte first. */
  function Fetch(c: Cpu): (op: bv16)
    requires Valid(c) && c.pc < 0xFFF
    ensures Byte(op, 1) == c.memory[c.pc] && Byte(op, 0) == c.memory[c.pc + 1]
  {
    Join(c.memory[c.pc], c.memory[c.pc + 1])
  }

  /** `pc += 2`: go on with the next instruction. */
  function Next(c: Cpu): Cpu
  {
    c.(pc := c.pc + 2)
  }

  /** `cond ? pc += 4 : pc += 2`: skip the next instruction when cond holds. */
  function Skip(c: Cpu, cond: bool): Cpu
  {
    c.(pc := c.pc + if cond then 4 else 2)
  }

  /** The registers with register x set to v. */
  function SetReg(regs: seq<bv8>, x: Reg, v: bv8): (r: seq<bv8>)
    requires |regs| == RegisterCount
    ensures |r| == RegisterCount
  {
    regs[x as int := v]
  }

  /** The flag value the source writes: 1 when cond holds, else 0. */
  function Flag(cond: bool): bv8
  {
    if cond then 1 else 0
  }

  /**
    Accesses the source performs without a bounds check, as preconditions:
    EX9E and EXA1 index `keys` with VX, FX33 writes memory[I .. I + 2] and
    FX55 and FX65 touch memory[I .. I + X].
   */
  predicate InBounds(c: Cpu, ins: Instr)
    requires Valid(c)
  {
    match ins
    case SkipKey(x) => c.V[x] as int < NumberOfKeys
    case SkipNoKey(x) => c.V[x] as int < NumberOfKeys
    case Misc(mop, x) =>
      (mop == StoreBcd ==> c.I as int + 2 < MemorySize)
      && (mop == StoreRegs || mop == LoadRegs ==> c.I as int + x as int < MemorySize)
    case _ => true
  }

  /** 00E0, 00EE, 1NNN, 2NNN and BNNN. */
  predicate IsControl(ins: Instr)
  {
    ins.ClearScreen? || ins.Return? || ins.Jump? || ins.Call? || ins.JumpOffset?
  }

  /** 3XNN, 4XNN, 5XY0, 9XY0, EX9E and EXA1. */
  predicate IsSkip(ins: Instr)
  {
    ins.SkipEqImm? || ins.SkipNeImm? || ins.SkipEqReg? || ins.SkipNeReg? || ins.SkipKey? || ins.SkipNoKey?
  }

  /** 00E0, 00EE, 1NNN, 2NNN and BNNN: the screen, the stack and the program counter. */
  function Control(c: Cpu, ins: Instr): (r: Outcome)
    requires Valid(c) && IsControl(ins)
    ensures Valid(r.cpu)
  {
    match ins
    case ClearScreen => Outcome(Success, Next(c.(display := Blank())))
    case Return =>
      if |c.stack| == 0 then Outcome(StackUnderflow, c)
      else Outcome(Success, c.(pc := c.stack[|c.stack| - 1], stack := c.stack[..|c.stack| - 1]))
    case Jump(nnn) => Outcome(Success, c.(pc := nnn))
    case Call(nnn) =>
      if |c.stack| >= StackLimit then Outcome(StackOverflow, c)
      else Outcome(Success, c.(stack := c.stack + [c.pc + 2], pc := nnn))
    case JumpOffset(nnn) => Outcome(Success, c.(pc := c.V[0] as bv16 + nnn))
  }

  /** The conditions of 3XNN, 4XNN, 5XY0, 9XY0, EX9E and EXA1. */
  predicate SkipTaken(c: Cpu, ins: Instr)
    requires Valid(c) && InBounds(c, ins) && IsSkip(ins)
  {
    match ins
    case SkipEqImm(x, nn) => c.V[x] == nn
    case SkipNeImm(x, nn) => c.V[x] != nn
    case SkipEqReg(x, y) => c.V[x] == c.V[y]
    case SkipNeReg(x, y) => c.V[x] != c.V[y]
    case SkipKey(x) => Pressed(c.keys, c.V[x])
    case SkipNoKey(x) => !Pressed(c.keys, c.V[x])
  }

  /** Whether key k is held down. */
  predicate Pressed(keys: seq<bv8>, k: bv8)
    requires |keys| == NumberOfKeys && k as int < NumberOfKeys
  {
    keys[k] != 0
  }

  /**
    The flag 8XYN writes to VF before it writes VX, computed from the values
    VX and VY had before the instruction; 8XY0 to 8XY3 write no flag.
   */
  function AluFlag(aop: ArithOp, vx: bv8, vy: bv8): Option<bv8>
  {
    match aop
    case Move => None
    case Or => None
    case And => None
    case Xor => None
    case Add => Some(Flag(0xFF - vx < vy))
    case Sub => Some(Flag(!(vy > vx)))
    case ShiftRight => Some(vy & 0x01)
    case SubReverse => Some(Flag(!(vy < vx)))
    case ShiftLeft => Some(Flag(vy & 0x80 != 0))
  }

  /**
    The value 8XYN writes to VX. 8XY4 and 8XY5 update the register in place
    (`V[x] += Vy`), so they start from its current value `cur`, which is the
    flag when X = F; the others use only the values VX and VY had before the
    instruction.
   */
  function AluResult(aop: ArithOp, cur: bv8, vx: bv8, vy: bv8): bv8
  {
    match aop
    case Move => vy
    case Or => vx | vy
    case And => vx & vy
    case Xor => vx ^ vy
    case Add => cur + vy
    case Sub => cur - vy
    case ShiftRight => vy >> 1
    case SubReverse => vy - vx
    case ShiftLeft => vy << 1
  }

  /** 8XYN on the registers: the flag first, if any, then VX. */
  function ArithRegs(regs: seq<bv8>, aop: ArithOp, x: Reg, y: Reg): (r: seq<bv8>)
    requires |regs| == RegisterCount
    ensures |r| == RegisterCount
  {
    var flagged := match AluFlag(aop, regs[x], regs[y])
      case None => regs
      case Some(f) => SetReg(regs, 0xF, f);
    SetReg(flagged, x, AluResult(aop, flagged[x], regs[x], regs[y]))
  }

  /** 6XNN, 7XNN, 8XYN, ANNN and CXNN: the registers and I. */
  function RegisterStep(c: Cpu, ins: Instr, rand: bv8): (r: Cpu)
    requires Valid(c) && (ins.LoadImm? || ins.AddImm? || ins.Arith? || ins.SetIndex? || ins.Random?)
    ensures Valid(r)
  {
    match ins
    case LoadImm(x, nn) => c.(V := SetReg(c.V, x, nn))
    case AddImm(x, nn) => c.(V := SetReg(c.V, x, c.V[x] + nn))
    case Arith(aop, x, y) => c.(V := ArithRegs(c.V, aop, x, y))
    case SetIndex(nnn) => c.(I := nnn)
    case Random(x, nn) => c.(V := SetReg(c.V, x, rand & nn))
  }

  /** DXYN: draw, then VF = 1 exactly when the draw loop reported a collision. */
  function DrawStep(c: Cpu, x: Reg, y: Reg, n: Reg): (r: Cpu)
    requires Valid(c)
    ensures Valid(r)
  {
    var drawn := DrawSprite(c.display, c.V[x], c.V[y], c.memory, c.I, n);
    c.(display := drawn.display, V := SetReg(c.V, 0xF, Flag(drawn.hit != 0)))
  }

  /** The first pressed key from index i on, scanning upwards to 15. */
  function FirstKeyFrom(keys: seq<bv8>, i: bv8): Option<bv8>
    requires |keys| == NumberOfKeys && i <= 16
    decreases 16 - i
  {
    if i == 16 then None
    else if keys[i] != 0 then Some(i)
    else FirstKeyFrom(keys, i + 1)
  }

  /** The loop of FX0A: the lowest-numbered pressed key, if any. */
  function FirstKey(keys: seq<bv8>): Option<bv8>
    requires |keys| == NumberOfKeys
  {
    FirstKeyFrom(keys, 0)
  }

  /** FX33: memory[i .. i + 2] := the hundreds, tens and units digits of v. */
  function WriteBcd(mem: seq<bv8>, i: int, v: bv8): (r: seq<bv8>)
    requires 0 <= i && i + 2 < |mem|
    ensures |r| == |mem|
  {
    mem[i := v / 100][i + 1 := (v % 100) / 10][i + 2 := v % 10]
  }

  /** FX55: `for (j = 0; j < count; j++) memory[base + j] = V[j]`. */
  function SaveRegisters(mem: seq<bv8>, regs: seq<bv8>, base: int, count: nat): (r: seq<bv8>)
    requires |regs| == RegisterCount && count <= RegisterCount
    requires 0 <= base && base + count <= |mem|
    ensures |r| == |mem|
  {
    if count == 0 then mem
    else SaveRegisters(mem, regs, base, count - 1)[base + count - 1 := regs[count - 1]]
  }

  /** FX65: `for (j = 0; j < count; j++) V[j] = memory[base + j]`. */
  function LoadRegisters(regs: seq<bv8>, mem: seq<bv8>, base: int, count: nat): (r: seq<bv8>)
    requires |regs| == RegisterCount && count <= RegisterCount
    requires 0 <= base && base + count <= |mem|
    ensures |r| == RegisterCount
  {
    if count == 0 then regs
    else LoadRegisters(regs, mem, base, count - 1)[count - 1 := mem[base + count - 1]]
  }

  /** FX0A: with no key pressed nothing changes, not even pc, so the instruction runs again. */
  function WaitKeyStep(c: Cpu, x: Reg): (r: Cpu)
    requires Valid(c)
    ensures Valid(r)
  {
    match FirstKey(c.keys)
    case None => c
    case Some(k) => Next(c.(V := SetReg(c.V, x, k)))
  }

  /** `I += VX` on the sixteen-bit I: the exact sum cut to its low sixteen bits. */
  function IndexPlus(i: bv16, v: bv8): (r: bv16)
    ensures r as bv32 == (i as bv32 + v as bv32) & 0xFFFF
  {
    i + v as bv16
  }

  /** FX1E: I += VX in 16 bits, then VF = 1 exactly when I has left the 12-bit address space. */
  function AddIndexStep(c: Cpu, x: Reg): (r: Cpu)
    requires Valid(c)
    ensures Valid(r)
  {
    var i := IndexPlus(c.I, c.V[x]);
    c.(I := i, V := SetReg(c.V, 0xF, Flag(i > 0xFFF)))
  }

  /** `FONT_BEGIN + Vx * 5`: the glyph of digit v; the sum never wraps. */
  function GlyphAt(v: bv8): (a: bv16)
    ensures a as bv32 == FontBegin as bv32 + v as bv32 * 5
  {
    0x50 + v as bv16 * 5
  }

  /** FX29: I = 0x50 + VX * 5, the glyph of digit VX. */
  function FontCharStep(c: Cpu, x: Reg): (r: Cpu)
    requires Valid(c)
    ensures Valid(r)
  {
    c.(I := GlyphAt(c.V[x]))
  }

  /** FX33: the decimal digits of VX to memory[I .. I + 2]. */
  function BcdStep(c: Cpu, x: Reg): (r: Cpu)
    requires Valid(c) && c.I as int + 2 < MemorySize
    ensures Valid(r)
  {
    c.(memory := WriteBcd(c.memory, c.I as int, c.V[x]))
  }

  /** FX55: V0 .. VX to memory[I .. I + X]. */
  function SaveStep(c: Cpu, x: Reg): (r: Cpu)
    requires Valid(c) && c.I as int + x as int < MemorySize
    ensures Valid(r)
  {
    c.(memory := SaveRegisters(c.memory, c.V, c.I as int, x as int + 1))
  }

  /** FX65: memory[I .. I + X] to V0 .. VX. */
  function LoadStep(c: Cpu, x: Reg): (r: Cpu)
    requires Valid(c) && c.I as int + x as int < MemorySize
    ensures Valid(r)
  {
    c.(V := LoadRegisters(c.V, c.memory, c.I as int, x as int + 1))
  }

  /** FXNN other than FX0A, before pc moves on. */
  function MiscEffect(c: Cpu, mop: MiscOp, x: Reg): (r: Cpu)
    requires Valid(c) && InBounds(c, Misc(mop, x)) && mop != WaitKey
    ensures Valid(r)
  {
    if mop == GetDelay then c.(V := SetReg(c.V, x, c.delayTimer))
    else if mop == SetDelay then c.(delayTimer := c.V[x])
    else if mop == SetSound then c.(soundTimer := c.V[x])
    else if mop == AddIndex then AddIndexStep(c, x)
    else if mop == FontChar then FontCharStep(c, x)
    else if mop == StoreBcd then BcdStep(c, x)
    else if mop == StoreRegs then SaveStep(c, x)
    else LoadStep(c, x)
  }

  /** FXNN: FX0A moves pc itself; every other one moves it on by two after its effect. */
  function MiscStep(c: Cpu, mop: MiscOp, x: Reg): (r: Cpu)
    requires Valid(c) && InBounds(c, Misc(mop, x))
    ensures Valid(r)
  {
    if mop == WaitKey then WaitKeyStep(c, x) else Next(MiscEffect(c, mop, x))
  }

  /** The effect of one decoded instruction; `rand` is the byte `rand() & 0xFF` of CXNN. */
  function Step(c: Cpu, ins: Instr, rand: bv8): (r: Outcome)
    requires Valid(c) && InBounds(c, ins)
    ensures Valid(r.cpu)
  {
    if IsControl(ins) then Control(c, ins)
    else if IsSkip(ins) then Outcome(Success, Skip(c, SkipTaken(c, ins)))
    else if ins.Draw? then Outcome(Success, Next(DrawStep(c, ins.x, ins.y, ins.n)))
    else if ins.Misc? then Outcome(Success, MiscStep(c, ins.mop, ins.x))
    else Outcome(Success, Next(RegisterStep(c, ins, rand)))
  }

  /** What `Execute` needs of the state: an opcode to fetch, and in-bounds accesses for it. */
  predicate CanExecute(c: Cpu)
  {
    && Valid(c)
    && c.pc < 0xFFF
    && (Decode(Fetch(c)).Some? ==> InBounds(c, Decode(Fetch(c)).value))
  }

  /** Cpu::Execute: fetch the opcode at pc, decode it, and run it. */
  function Execute(c: Cpu, rand: bv8): (r: Outcome)
    requires CanExecute(c)
    ensures Valid(r.cpu)
  {
    match Decode(Fetch(c))
    case None => Outcome(UnsupportedOpcode, c)
    case Some(ins) => Step(c, ins, rand)
  }

  /** A timer tick: decrement unless already zero. */
  function Tick(t: bv8): bv8
  {
    if t != 0 then t - 1 else 0
  }

  /** Cpu::UpdateTimers. */
  function UpdateTimers(c: Cpu): Cpu
  {
    c.(delayTimer := Tick(c.delayTimer), soundTimer := Tick(c.soundTimer))
  }

  /** k calls of UpdateTimers. */
  function Ticks(c: Cpu, k: nat): Cpu
  {
    if k == 0 then c else UpdateTimers(Ticks(c, k - 1))
  }

  /**
    Cpu::Init: memory, registers, keys and display cleared, pc at the
    program start, I and both timers zero. The stack is left as it was.
   */
  function Init(c: Cpu): Cpu
  {
    c.(memory := seq(MemorySize, _ => 0), V := seq(RegisterCount, _ => 0), I := 0,
       pc := MemoryBegin as bv16, delayTimer := 0, display := Blank(),
       keys := seq(NumberOfKeys, _ => 0), soundTimer := 0)
  }

  /** The hexadecimal font, five rows per digit 0 to F. */
  const FontSet: seq<bv8> := [
    0xF0, 0x90, 0x90, 0x90, 0xF0,  // 0
    0x20, 0x60, 0x20, 0x20, 0x70,  // 1
    0xF0, 0x10, 0xF0, 0x80, 0xF0,  // 2
    0xF0, 0x10, 0xF0, 0x10, 0xF0,  // 3
    0x90, 0x90, 0xF0, 0x10, 0x10,  // 4
    0xF0, 0x80, 0xF0, 0x10, 0xF0,  // 5
    0xF0, 0x80, 0xF0, 0x90, 0xF0,  // 6
    0xF0, 0x10, 0x20, 0x40, 0x40,  // 7
    0xF0, 0x90, 0xF0, 0x90, 0xF0,  // 8
    0xF0, 0x90, 0xF0, 0x10, 0xF0,  // 9
    0xF0, 0x90, 0xF0, 0x90, 0x90,  // A
    0xE0, 0x90, 0xE0, 0x90, 0xE0,  // B
    0xF0, 0x80, 0x80, 0x80, 0xF0,  // C
    0xE0, 0x90, 0x90, 0x90, 0xE0,  // D
    0xF0, 0x80, 0xF0, 0x80, 0xF0,  // E
    0xF0, 0x80, 0xF0, 0x80, 0x80   // F
  ]

  /** The result of LoadMemory: whether the file opened, and the state. */
  datatype Loaded = Loaded(ok: bool, cpu: Cpu)

  /** mem with the bytes s written from address at on. */
  function Splice(mem: seq<bv8>, at: nat, s: seq<bv8>): (r: seq<bv8>)
    requires at + |s| <= |mem|
    ensures |r| == |mem|
  {
    mem[..at] + s + mem[at + |s|..]
  }

  /**
    The placement part of Cpu::LoadMemory. The font is copied to 0x50 first,
    whether or not the file opened. The read loop stores every byte of the
    file from 0x200 on and then one more byte: the end-of-file value of
    `get()`, which converts to 0xFF.
   */
  function LoadImage(c: Cpu, fileOpened: bool, rom: seq<bv8>): (r: Loaded)
    requires Valid(c) && MemoryBegin + |rom| + 1 <= MemorySize
    ensures Valid(r.cpu)
  {
    var font := Splice(c.memory, FontBegin, FontSet);
    if !fileOpened then Loaded(false, c.(memory := font))
    else Loaded(true, c.(memory := Splice(font, MemoryBegin, rom + [0xFF])))
  }
}
