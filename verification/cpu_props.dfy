/**
  Properties of `Interpreter.Execute` and of the state operations: status
  codes, the call stack, skips, drawing, the FXNN transfers, the timers,
  `Init` and the image placement of `LoadMemory`.
 */
module InterpreterProperties {
  import opened CpuDefs
  import opened Opcodes
  import opened Screen
  import opened Interpreter
  import opened ArithProperties

  // ---------------------------------------------------------------------
  // What each group of instructions leaves alone

  /** 6XNN, 7XNN, 8XYN, ANNN and CXNN change only the registers and I. */
  lemma RegisterFrame(c: Cpu, ins: Instr, rand: bv8)
    requires Valid(c) && (ins.LoadImm? || ins.AddImm? || ins.Arith? || ins.SetIndex? || ins.Random?)
    ensures RegisterStep(c, ins, rand).(V := c.V, I := c.I) == c
  {
    match ins
    case LoadImm(_, _) =>
    case AddImm(_, _) =>
    case Arith(_, _, _) =>
    case SetIndex(_) =>
    case Random(_, _) =>
  }

  /** DXYN changes only the display and VF. */
  lemma DrawFrame(c: Cpu, x: Reg, y: Reg, n: Reg)
    requires Valid(c)
    ensures DrawStep(c, x, y, n).(display := c.display, V := c.V) == c
    ensures forall i: int | 0 <= i < 0xF :: DrawStep(c, x, y, n).V[i] == c.V[i]
  {
  }

  /** FXNN other than FX0A leaves pc, the stack, the display and the keys alone before pc moves on. */
  lemma MiscEffectFrame(c: Cpu, mop: MiscOp, x: Reg)
    requires Valid(c) && InBounds(c, Misc(mop, x)) && mop != WaitKey
    ensures var r := MiscEffect(c, mop, x);
      r.pc == c.pc && r.stack == c.stack && r.display == c.display && r.keys == c.keys
  {
    match mop
    case GetDelay =>
    case SetDelay =>
    case SetSound =>
    case AddIndex =>
    case FontChar =>
    case StoreBcd =>
    case StoreRegs =>
    case LoadRegs =>
  }

  /** FXNN leaves the stack, the display and the keys alone. */
  lemma MiscFrame(c: Cpu, mop: MiscOp, x: Reg)
    requires Valid(c) && InBounds(c, Misc(mop, x))
    ensures var r := MiscStep(c, mop, x);
      r.stack == c.stack && r.display == c.display && r.keys == c.keys
  {
    if mop != WaitKey {
      MiscEffectFrame(c, mop, x);
    }
  }

  // ---------------------------------------------------------------------
  // Status codes and the call stack

  /** Every instruction outside 00E0, 00EE, 1NNN, 2NNN and BNNN succeeds and keeps the stack. */
  lemma StepKeepsStack(c: Cpu, ins: Instr, rand: bv8)
    requires Valid(c) && InBounds(c, ins) && !IsControl(ins)
    ensures Step(c, ins, rand).status == Success
    ensures Step(c, ins, rand).cpu.stack == c.stack
  {
    if IsSkip(ins) {
    } else if ins.Draw? {
      DrawFrame(c, ins.x, ins.y, ins.n);
    } else if ins.Misc? {
      MiscFrame(c, ins.mop, ins.x);
    } else {
      RegisterFrame(c, ins, rand);
    }
  }

  /**
    Only 00EE and 2NNN fail once decoded, each for its own stack condition; a
    failure changes nothing, only a successful 2NNN deepens the stack, only a
    successful 00EE pops it, and every other instruction keeps it.
   */
  lemma StepStatus(c: Cpu, ins: Instr, rand: bv8)
    requires Valid(c) && InBounds(c, ins)
    ensures var r := Step(c, ins, rand);
      && r.status != UnsupportedOpcode
      && (r.status == StackUnderflow <==> ins == Return && |c.stack| == 0)
      && (r.status == StackOverflow <==> ins.Call? && |c.stack| >= StackLimit)
      && (r.status != Success ==> r.cpu == c)
      && (r.status == Success && ins.Call? ==> r.cpu.stack == c.stack + [c.pc + 2])
      && (r.status == Success && ins.Return? ==> r.cpu.stack + [c.stack[|c.stack| - 1]] == c.stack)
      && (!ins.Call? && !ins.Return? ==> r.cpu.stack == c.stack)
  {
    if !IsControl(ins) {
      StepKeepsStack(c, ins, rand);
    }
  }

  /** 00EE on a non-empty stack resumes at the top address, pops it and changes nothing else. */
  lemma ReturnPops(c: Cpu, rand: bv8)
    requires Valid(c) && |c.stack| > 0
    ensures var r := Step(c, Return, rand);
      && r.status == Success
      && r.cpu.pc == c.stack[|c.stack| - 1]
      && r.cpu.stack + [r.cpu.pc] == c.stack
      && r.cpu.(pc := c.pc, stack := c.stack) == c
  {
  }

  /**
    Execute reports an unsupported opcode exactly for the opcodes the
    dispatch rejects, underflow exactly for 00EE on an empty stack, overflow
    exactly for 2NNN at depth 16, and returns the state unchanged whenever
    the status is not success.
   */
  lemma ExecuteStatus(c: Cpu, rand: bv8)
    requires CanExecute(c)
    ensures var r := Execute(c, rand);
      var op := Fetch(c);
      && (r.status == UnsupportedOpcode <==> Unsupported(op))
      && (r.status == StackUnderflow <==> Decode(op) == Some(Return) && |c.stack| == 0)
      && (r.status == StackOverflow <==> Decode(op).Some? && Decode(op).value.Call? && |c.stack| >= StackLimit)
      && (r.status != Success ==> r.cpu == c)
  {
    var op := Fetch(c);
    DecodeUnsupported(op);
    match Decode(op)
    case None =>
    case Some(ins) => StepStatus(c, ins, rand);
  }

  /** A call followed by a return comes back to the instruction after the call with the stack as it was. */
  lemma CallThenReturn(c: Cpu, nnn: Addr, rand: bv8)
    requires Valid(c) && |c.stack| < StackLimit
    ensures var called := Step(c, Call(nnn), rand);
      && called.status == Success
      && called.cpu.pc == nnn
      && |called.cpu.stack| == |c.stack| + 1
      && Step(called.cpu, Return, rand) == Outcome(Success, c.(pc := c.pc + 2))
  {
    var called := Step(c, Call(nnn), rand).cpu;
    assert called.stack[..|called.stack| - 1] == c.stack;
  }

  // ---------------------------------------------------------------------
  // How Step dispatches, one group at a time

  lemma StepSkipShape(c: Cpu, ins: Instr, rand: bv8)
    requires Valid(c) && InBounds(c, ins) && IsSkip(ins)
    ensures Step(c, ins, rand) == Outcome(Success, Skip(c, SkipTaken(c, ins)))
  {
  }

  lemma StepRegisterShape(c: Cpu, ins: Instr, rand: bv8)
    requires Valid(c) && (ins.LoadImm? || ins.AddImm? || ins.Arith? || ins.SetIndex? || ins.Random?)
    ensures Step(c, ins, rand) == Outcome(Success, Next(RegisterStep(c, ins, rand)))
  {
  }

  lemma StepDrawShape(c: Cpu, x: Reg, y: Reg, n: Reg, rand: bv8)
    requires Valid(c)
    ensures Step(c, Draw(x, y, n), rand) == Outcome(Success, Next(DrawStep(c, x, y, n)))
  {
  }

  lemma StepMiscShape(c: Cpu, mop: MiscOp, x: Reg, rand: bv8)
    requires Valid(c) && InBounds(c, Misc(mop, x))
    ensures Step(c, Misc(mop, x), rand) == Outcome(Success, MiscStep(c, mop, x))
  {
  }

  // ---------------------------------------------------------------------
  // Skips and the program counter

  /** A skip moves pc by four when taken and by two otherwise, and changes nothing else. */
  lemma SkipMoves(c: Cpu, taken: bool)
    ensures Skip(c, taken).(pc := c.pc) == c
    ensures Skip(c, taken).pc == c.pc + 4 <==> taken
    ensures Skip(c, taken).pc == c.pc + 2 <==> !taken
  {
    if taken {
      assert Skip(c, taken).pc == c.pc + 4;
    } else {
      assert Skip(c, taken).pc == c.pc + 2;
    }
  }

  /** A skip succeeds, moves pc by four when its condition holds and by two otherwise, and changes nothing else. */
  lemma SkipFrame(c: Cpu, ins: Instr, rand: bv8)
    requires Valid(c) && InBounds(c, ins) && IsSkip(ins)
    ensures var r := Step(c, ins, rand);
      && r.status == Success
      && r.cpu.(pc := c.pc) == c
      && (r.cpu.pc == c.pc + 4 <==> SkipTaken(c, ins))
      && (r.cpu.pc == c.pc + 2 <==> !SkipTaken(c, ins))
  {
    StepSkipShape(c, ins, rand);
    SkipMoves(c, SkipTaken(c, ins));
  }

  /** 3XNN skips exactly when VX equals NN and 4XNN exactly when it does not. */
  lemma SkipImmediate(c: Cpu, x: Reg, nn: bv8, rand: bv8)
    requires Valid(c)
    ensures Step(c, SkipEqImm(x, nn), rand).cpu.pc == c.pc + 4 <==> c.V[x] == nn
    ensures Step(c, SkipNeImm(x, nn), rand).cpu.pc == c.pc + 4 <==> c.V[x] != nn
  {
    SkipFrame(c, SkipEqImm(x, nn), rand);
    SkipFrame(c, SkipNeImm(x, nn), rand);
  }

  /** 5XY0 skips exactly when VX equals VY and 9XY0 exactly when it does not. */
  lemma SkipRegisters(c: Cpu, x: Reg, y: Reg, rand: bv8)
    requires Valid(c)
    ensures Step(c, SkipEqReg(x, y), rand).cpu.pc == c.pc + 4 <==> c.V[x] == c.V[y]
    ensures Step(c, SkipNeReg(x, y), rand).cpu.pc == c.pc + 4 <==> c.V[x] != c.V[y]
  {
    SkipFrame(c, SkipEqReg(x, y), rand);
    SkipFrame(c, SkipNeReg(x, y), rand);
  }

  /** EX9E skips exactly when key VX is down and EXA1 exactly when it is up. */
  lemma SkipKeys(c: Cpu, x: Reg, rand: bv8)
    requires Valid(c) && c.V[x] as int < NumberOfKeys
    ensures Step(c, SkipKey(x), rand).cpu.pc == c.pc + 4 <==> c.keys[c.V[x]] != 0
    ensures Step(c, SkipNoKey(x), rand).cpu.pc == c.pc + 4 <==> c.keys[c.V[x]] == 0
  {
    SkipFrame(c, SkipKey(x), rand);
    SkipFrame(c, SkipNoKey(x), rand);
  }

  /** FXNN other than FX0A moves pc on by exactly two. */
  lemma MiscAdvances(c: Cpu, mop: MiscOp, x: Reg)
    requires Valid(c) && InBounds(c, Misc(mop, x)) && mop != WaitKey
    ensures MiscStep(c, mop, x).pc == c.pc + 2
  {
    MiscEffectFrame(c, mop, x);
  }

  lemma NextAfter(c: Cpu, d: Cpu)
    requires d.pc == c.pc
    ensures Next(d).pc == c.pc + 2
  {
  }

  lemma MiscStepAdvances(c: Cpu, mop: MiscOp, x: Reg, rand: bv8)
    requires Valid(c) && InBounds(c, Misc(mop, x)) && mop != WaitKey
    ensures Step(c, Misc(mop, x), rand).cpu.pc == c.pc + 2
  {
    StepMiscShape(c, mop, x, rand);
    MiscAdvances(c, mop, x);
  }

  lemma DrawAdvances(c: Cpu, x: Reg, y: Reg, n: Reg, rand: bv8)
    requires Valid(c)
    ensures Step(c, Draw(x, y, n), rand).cpu.pc == c.pc + 2
  {
    StepDrawShape(c, x, y, n, rand);
    DrawFrame(c, x, y, n);
    NextAfter(c, DrawStep(c, x, y, n));
  }

  lemma RegisterAdvances(c: Cpu, ins: Instr, rand: bv8)
    requires Valid(c) && (ins.LoadImm? || ins.AddImm? || ins.Arith? || ins.SetIndex? || ins.Random?)
    ensures Step(c, ins, rand).cpu.pc == c.pc + 2
  {
    StepRegisterShape(c, ins, rand);
    RegisterFrame(c, ins, rand);
    NextAfter(c, RegisterStep(c, ins, rand));
  }

  /** Every instruction other than the control transfers, the skips and FX0A moves pc on by exactly two. */
  lemma AdvancesByTwo(c: Cpu, ins: Instr, rand: bv8)
    requires Valid(c) && InBounds(c, ins)
    requires !IsControl(ins) && !IsSkip(ins) && !(ins.Misc? && ins.mop == WaitKey)
    ensures Step(c, ins, rand).cpu.pc == c.pc + 2
  {
    if ins.Misc? {
      MiscStepAdvances(c, ins.mop, ins.x, rand);
    } else if ins.Draw? {
      DrawAdvances(c, ins.x, ins.y, ins.n, rand);
    } else {
      RegisterAdvances(c, ins, rand);
    }
  }

  /** BNNN jumps to V0 + NNN, computed without wrap-around: the target may lie beyond 0xFFF. */
  lemma JumpOffsetTarget(c: Cpu, nnn: Addr, rand: bv8)
    requires Valid(c)
    ensures Step(c, JumpOffset(nnn), rand).cpu.pc as bv32 == c.V[0] as bv32 + nnn as bv32
  {
  }

  // ---------------------------------------------------------------------
  // Registers

  /** Setting one register writes it and nothing else. */
  lemma SetRegWrites(regs: seq<bv8>, x: Reg, v: bv8)
    requires |regs| == RegisterCount
    ensures var r := SetReg(regs, x, v);
      && r[x] == v
      && forall i: int | 0 <= i < RegisterCount && i != x as int :: r[i] == regs[i]
  {
  }

  lemma AddImmRegisters(c: Cpu, x: Reg, nn: bv8, rand: bv8)
    requires Valid(c)
    ensures Step(c, AddImm(x, nn), rand).cpu.V == SetReg(c.V, x, c.V[x] + nn)
  {
    StepRegisterShape(c, AddImm(x, nn), rand);
  }

  /** 7XNN adds without touching VF (for X != F): VX becomes VX + NN mod 256 and no other register changes. */
  lemma AddImmNoCarry(c: Cpu, x: Reg, nn: bv8, rand: bv8)
    requires Valid(c)
    ensures var r := Step(c, AddImm(x, nn), rand).cpu;
      && Wide(r.V[x]) == (Wide(c.V[x]) + Wide(nn)) & 0xFF
      && forall i: int | 0 <= i < RegisterCount && i != x as int :: r.V[i] == c.V[i]
  {
    AddImmRegisters(c, x, nn, rand);
    SetRegWrites(c.V, x, c.V[x] + nn);
    AddCarry(c.V[x], nn);
  }

  /** CXNN: each bit of VX is set exactly when it is set both in the random byte and in NN; no other register changes. */
  lemma RandomMasked(c: Cpu, x: Reg, nn: bv8, rand: bv8, b: bv8)
    requires Valid(c) && b < 8
    ensures BitAt(Step(c, Random(x, nn), rand).cpu.V[x], b) == (BitAt(rand, b) && BitAt(nn, b))
    ensures forall i: int | 0 <= i < RegisterCount && i != x as int :: Step(c, Random(x, nn), rand).cpu.V[i] == c.V[i]
  {
    StepRegisterShape(c, Random(x, nn), rand);
    SetRegWrites(c.V, x, rand & nn);
    AndBit(rand, nn, b);
  }

  /** 6XNN sets VX to NN and no other register; ANNN sets I to NNN and leaves the registers alone. */
  lemma LoadAndIndex(c: Cpu, x: Reg, nn: bv8, nnn: Addr, rand: bv8)
    requires Valid(c)
    ensures var r := Step(c, LoadImm(x, nn), rand).cpu;
      && r.V[x] == nn
      && (forall i: int | 0 <= i < RegisterCount && i != x as int :: r.V[i] == c.V[i])
      && r.I == c.I
    ensures var r := Step(c, SetIndex(nnn), rand).cpu;
      r.I == nnn && r.V == c.V
  {
    StepRegisterShape(c, LoadImm(x, nn), rand);
    StepRegisterShape(c, SetIndex(nnn), rand);
    SetRegWrites(c.V, x, nn);
  }

  /** 8XYN replaces the registers by ArithRegs of the old ones, keeps I and moves pc on by two. */
  lemma ArithStep(c: Cpu, aop: ArithOp, x: Reg, y: Reg, rand: bv8)
    requires Valid(c)
    ensures Step(c, Arith(aop, x, y), rand).cpu == c.(V := ArithRegs(c.V, aop, x, y), pc := c.pc + 2)
  {
    StepRegisterShape(c, Arith(aop, x, y), rand);
  }

  /** 00E0 darkens every pixel and changes nothing else; 1NNN only sets pc to NNN. */
  lemma ClearAndJump(c: Cpu, nnn: Addr, rand: bv8)
    requires Valid(c)
    ensures var r := Step(c, ClearScreen, rand);
      && r.status == Success
      && (forall p: bv16 | p < 2048 :: !Lit(r.cpu.display, p))
      && r.cpu.(display := c.display, pc := c.pc) == c
      && r.cpu.pc == c.pc + 2
    ensures Step(c, Jump(nnn), rand) == Outcome(Success, c.(pc := nnn))
  {
  }

  // ---------------------------------------------------------------------
  // Drawing

  /**
    DXYN flips exactly the pixels the sprite covers, sets VF to 1 exactly
    when one of them was lit before (a collision) and to 0 otherwise, and
    moves on to the next instruction.
   */
  lemma DrawEffect(c: Cpu, x: Reg, y: Reg, n: Reg, rand: bv8)
    requires Valid(c)
    ensures var r := Step(c, Draw(x, y, n), rand).cpu;
      && (forall p: bv16 | p < 2048 ::
            Lit(r.display, p) == (Lit(c.display, p) != Covers(c.V[x], c.V[y], c.memory, c.I, n, p)))
      && (r.V[0xF] == 1 <==> exists p: bv16 | p < 2048 :: Covers(c.V[x], c.V[y], c.memory, c.I, n, p) && Lit(c.display, p))
      && (r.V[0xF] == 0 || r.V[0xF] == 1)
      && (forall i: int | 0 <= i < 0xF :: r.V[i] == c.V[i])
      && r.pc == c.pc + 2
  {
    StepDrawShape(c, x, y, n, rand);
    DrawSpriteEffect(c.display, c.V[x], c.V[y], c.memory, c.I, n);
  }

  /** Drawing the same sprite twice at the same place restores the display (with X, Y != F, so VF does not move it). */
  lemma DrawTwiceRestores(c: Cpu, x: Reg, y: Reg, n: Reg, rand: bv8)
    requires Valid(c) && x != 0xF && y != 0xF
    ensures var once := Step(c, Draw(x, y, n), rand).cpu;
      Step(once, Draw(x, y, n), rand).cpu.display == c.display
  {
    StepDrawShape(c, x, y, n, rand);
    var once := Step(c, Draw(x, y, n), rand).cpu;
    StepDrawShape(once, x, y, n, rand);
    assert (x as int) as bv8 == x;
    assert (y as int) as bv8 == y;
    assert once.V[x] == c.V[x] && once.V[y] == c.V[y];
    DrawTwice(c.display, c.V[x], c.V[y], c.memory, c.I, n);
  }

  // ---------------------------------------------------------------------
  // FX0A

  /** k is pressed and no lower-numbered key is. */
  ghost predicate LowestPressed(keys: seq<bv8>, k: bv8)
    requires |keys| == NumberOfKeys
  {
    k < 16 && keys[k] != 0 && forall j: bv8 | j < k :: keys[j] == 0
  }

  /** The scan from i finds the lowest pressed key at or above i, or reports that none from i on is pressed. */
  lemma {:induction false} FirstKeyFromFinds(keys: seq<bv8>, i: bv8)
    requires |keys| == NumberOfKeys && i <= 16
    ensures match FirstKeyFrom(keys, i)
      case Some(k) => i <= k < 16 && keys[k] != 0 && forall j: bv8 | i <= j < k :: keys[j] == 0
      case None => forall j: bv8 | i <= j < 16 :: keys[j] == 0
    decreases 16 - i
  {
    if i < 16 && keys[i] == 0 {
      FirstKeyFromFinds(keys, i + 1);
    }
  }

  /** FX0A stores the lowest pressed key and moves on; with no key pressed it changes nothing, so it runs again. */
  lemma WaitKeyEffect(c: Cpu, x: Reg, rand: bv8)
    requires Valid(c)
    ensures var r := Step(c, Misc(WaitKey, x), rand);
      && r.status == Success
      && ((forall j: bv8 | j < 16 :: c.keys[j] == 0) ==> r.cpu == c)
      && forall k: bv8 | LowestPressed(c.keys, k) ::
           && r.cpu.V[x] == k
           && (forall i: int | 0 <= i < RegisterCount && i != x as int :: r.cpu.V[i] == c.V[i])
           && r.cpu.pc == c.pc + 2
           && r.cpu.(V := c.V, pc := c.pc) == c
  {
    FirstKeyFromFinds(c.keys, 0);
  }
}
