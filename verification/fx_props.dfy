/**
  Properties of the FXNN group: the timer transfers, FX1E, FX29, FX33 and
  the register block moves FX55 and FX65. FX0A is covered by
  `InterpreterProperties.WaitKeyEffect`.
 */
module FxProperties {
  import opened CpuDefs
  import opened Opcodes
  import opened Interpreter
  import opened InterpreterProperties

  /** FXNN other than FX0A: its effect, then pc moves on by two. */
  lemma MiscShape(c: Cpu, mop: MiscOp, x: Reg, rand: bv8)
    requires Valid(c) && InBounds(c, Misc(mop, x)) && mop != WaitKey
    ensures Step(c, Misc(mop, x), rand) == Outcome(Success, Next(MiscEffect(c, mop, x)))
  {
    StepMiscShape(c, mop, x, rand);
  }

  lemma BcdShape(c: Cpu, x: Reg, rand: bv8)
    requires Valid(c) && c.I as int + 2 < MemorySize
    ensures Step(c, Misc(StoreBcd, x), rand).cpu == c.(memory := WriteBcd(c.memory, c.I as int, c.V[x]), pc := c.pc + 2)
  {
    StepMiscShape(c, StoreBcd, x, rand);
    assert MiscStep(c, StoreBcd, x) == Next(BcdStep(c, x));
  }

  lemma SaveShape(c: Cpu, x: Reg, rand: bv8)
    requires Valid(c) && c.I as int + x as int < MemorySize
    ensures Step(c, Misc(StoreRegs, x), rand).cpu
         == c.(memory := SaveRegisters(c.memory, c.V, c.I as int, x as int + 1), pc := c.pc + 2)
  {
    StepMiscShape(c, StoreRegs, x, rand);
    assert MiscStep(c, StoreRegs, x) == Next(SaveStep(c, x));
  }

  lemma LoadShape(c: Cpu, x: Reg, rand: bv8)
    requires Valid(c) && c.I as int + x as int < MemorySize
    ensures Step(c, Misc(LoadRegs, x), rand).cpu
         == c.(V := LoadRegisters(c.V, c.memory, c.I as int, x as int + 1), pc := c.pc + 2)
  {
    StepMiscShape(c, LoadRegs, x, rand);
    assert MiscStep(c, LoadRegs, x) == Next(LoadStep(c, x));
  }

  // ---------------------------------------------------------------------
  // FX07, FX15, FX18

  /** FX07 copies the delay timer into VX and changes no other register. */
  lemma GetDelayEffect(c: Cpu, x: Reg, rand: bv8)
    requires Valid(c)
    ensures var r := Step(c, Misc(GetDelay, x), rand).cpu;
      && r.V[x] == c.delayTimer
      && (forall i: int | 0 <= i < RegisterCount && i != x as int :: r.V[i] == c.V[i])
      && r.(V := c.V, pc := c.pc) == c
  {
    MiscShape(c, GetDelay, x, rand);
    SetRegWrites(c.V, x, c.delayTimer);
  }

  /** FX15 and FX18 copy VX into the delay and the sound timer and change nothing else. */
  lemma SetTimerEffect(c: Cpu, x: Reg, rand: bv8)
    requires Valid(c)
    ensures var r := Step(c, Misc(SetDelay, x), rand).cpu;
      r.delayTimer == c.V[x] && r.(delayTimer := c.delayTimer, pc := c.pc) == c
    ensures var r := Step(c, Misc(SetSound, x), rand).cpu;
      r.soundTimer == c.V[x] && r.(soundTimer := c.soundTimer, pc := c.pc) == c
  {
    MiscShape(c, SetDelay, x, rand);
    MiscShape(c, SetSound, x, rand);
  }

  /** FX15 then FY07 reads back what was written: VY ends up holding the old VX. */
  lemma DelayRoundTrip(c: Cpu, x: Reg, y: Reg, rand: bv8)
    requires Valid(c)
    ensures var s := Step(c, Misc(SetDelay, x), rand).cpu;
      Step(s, Misc(GetDelay, y), rand).cpu.V[y] == c.V[x]
  {
    SetTimerEffect(c, x, rand);
    var s := Step(c, Misc(SetDelay, x), rand).cpu;
    GetDelayEffect(s, y, rand);
  }

  // ---------------------------------------------------------------------
  // FX1E and FX29

  /**
    FX1E adds VX to I modulo 2^16 (I is sixteen bits wide, not twelve), and
    then VF = 1 exactly when the new I lies beyond 0xFFF. VF is written after
    the addition, so for X = F the old VF is what is added.
   */
  lemma AddIndexEffect(c: Cpu, x: Reg, rand: bv8)
    requires Valid(c)
    ensures var r := Step(c, Misc(AddIndex, x), rand).cpu;
      && r.I == IndexPlus(c.I, c.V[x])
      && (r.V[0xF] == 1 <==> r.I > 0xFFF)
      && (r.V[0xF] == 0 <==> r.I <= 0xFFF)
  {
    AddIndexShape(c, x, rand);
    AfterAddIndex(c, IndexPlus(c.I, c.V[x]), c.pc + 2);
  }

  /** FX1E changes only I, VF and pc. */
  lemma AddIndexFrame(c: Cpu, x: Reg, rand: bv8)
    requires Valid(c)
    ensures var r := Step(c, Misc(AddIndex, x), rand).cpu;
      && (forall i: int | 0 <= i < 0xF :: r.V[i] == c.V[i])
      && r.(I := c.I, V := c.V, pc := c.pc) == c
  {
    AddIndexShape(c, x, rand);
    AfterAddIndex(c, IndexPlus(c.I, c.V[x]), c.pc + 2);
  }

  lemma AddIndexShape(c: Cpu, x: Reg, rand: bv8)
    requires Valid(c)
    ensures var i := IndexPlus(c.I, c.V[x]);
      Step(c, Misc(AddIndex, x), rand).cpu == c.(I := i, V := SetReg(c.V, 0xF, Flag(i > 0xFFF)), pc := c.pc + 2)
  {
    MiscShape(c, AddIndex, x, rand);
  }

  lemma AfterAddIndex(c: Cpu, i: bv16, p: bv16)
    requires Valid(c)
    ensures var r := c.(I := i, V := SetReg(c.V, 0xF, Flag(i > 0xFFF)), pc := p);
      && (r.V[0xF] == 1 <==> i > 0xFFF)
      && (r.V[0xF] == 0 <==> i <= 0xFFF)
      && (forall j: int | 0 <= j < 0xF :: r.V[j] == c.V[j])
      && r.(I := c.I, V := c.V, pc := c.pc) == c
  {
    SetRegWrites(c.V, 0xF, Flag(i > 0xFFF));
  }

  /** FX29 points I at 0x50 + 5 * VX; the sum is formed without wrap-around. */
  lemma FontCharAddress(c: Cpu, x: Reg, rand: bv8)
    requires Valid(c)
    ensures var r := Step(c, Misc(FontChar, x), rand).cpu; var v := c.V[x];
      r.I as bv32 == FontBegin as bv32 + v as bv32 * 5 && r.(I := c.I, pc := c.pc) == c
  {
    MiscShape(c, FontChar, x, rand);
  }

  lemma GlyphAddress(v: bv8)
    requires v < 16
    ensures GlyphAt(v) as int == FontBegin + 5 * v as int
  {
  }

  /** The font is in place at 0x50. */
  predicate FontLoaded(mem: seq<bv8>)
  {
    |mem| == MemorySize && mem[FontBegin..FontBegin + FontSize] == FontSet
  }

  /** With the font in place, the glyph address of a digit v < 16 holds the five rows of that digit. */
  lemma GlyphRows(mem: seq<bv8>, v: bv8)
    requires FontLoaded(mem) && v < 16
    ensures var a := GlyphAt(v) as int;
      a + 5 <= MemorySize && mem[a .. a + 5] == FontSet[5 * v as int .. 5 * v as int + 5]
  {
    GlyphAddress(v);
    SliceOfSlice(mem, FontBegin, FontBegin + FontSize, 5 * v as int, 5 * v as int + 5);
  }

  lemma FontCharShape(c: Cpu, x: Reg, rand: bv8)
    requires Valid(c)
    ensures Step(c, Misc(FontChar, x), rand).cpu == c.(I := GlyphAt(c.V[x]), pc := c.pc + 2)
  {
    MiscShape(c, FontChar, x, rand);
  }

  /** With the font in place, FX29 for a digit VX < 16 points I at the five rows of that digit's glyph. */
  lemma FontCharGlyph(c: Cpu, x: Reg, rand: bv8)
    requires Valid(c) && FontLoaded(c.memory) && c.V[x] < 16
    ensures var r := Step(c, Misc(FontChar, x), rand).cpu; var v := c.V[x] as int;
      r.I as int + 5 <= MemorySize && r.memory[r.I as int .. r.I as int + 5] == FontSet[5 * v .. 5 * v + 5]
  {
    FontCharShape(c, x, rand);
    GlyphRows(c.memory, c.V[x]);
  }

  lemma SliceOfSlice(s: seq<bv8>, a: int, b: int, i: int, j: int)
    requires 0 <= a <= b <= |s| && 0 <= i <= j <= b - a
    ensures s[a..b][i..j] == s[a + i..a + j]
  {
    assert forall k | 0 <= k < j - i :: s[a..b][i..j][k] == s[a + i..a + j][k];
  }

  // ---------------------------------------------------------------------
  // FX33

  /** The three digits written are decimal digits that spell v, and nothing else in memory changes. */
  lemma WriteBcdDigits(mem: seq<bv8>, i: int, v: bv8)
    requires 0 <= i && i + 2 < |mem|
    ensures var r := WriteBcd(mem, i, v);
      && r[i] < 10 && r[i + 1] < 10 && r[i + 2] < 10
      && 100 * r[i] as int + 10 * r[i + 1] as int + r[i + 2] as int == v as int
      && forall j: int | 0 <= j < |mem| && (j < i || i + 2 < j) :: r[j] == mem[j]
  {
  }

  /** FX33 stores the decimal digits of VX at I, I + 1, I + 2 and changes nothing else, not even I. */
  lemma BcdEffect(c: Cpu, x: Reg, rand: bv8)
    requires Valid(c) && c.I as int + 2 < MemorySize
    ensures var r := Step(c, Misc(StoreBcd, x), rand).cpu; var i := c.I as int;
      && r.memory[i] < 10 && r.memory[i + 1] < 10 && r.memory[i + 2] < 10
      && 100 * r.memory[i] as int + 10 * r.memory[i + 1] as int + r.memory[i + 2] as int == c.V[x] as int
      && (forall j: int | 0 <= j < MemorySize && (j < i || i + 2 < j) :: r.memory[j] == c.memory[j])
      && r.(memory := c.memory, pc := c.pc) == c
  {
    BcdShape(c, x, rand);
    WriteBcdDigits(c.memory, c.I as int, c.V[x]);
  }

  // ---------------------------------------------------------------------
  // FX55 and FX65

  /** The save loop writes regs[0 .. count) to mem[base .. base + count) and nothing else. */
  lemma {:induction false} SaveRegistersEffect(mem: seq<bv8>, regs: seq<bv8>, base: int, count: nat)
    requires |regs| == RegisterCount && count <= RegisterCount
    requires 0 <= base && base + count <= |mem|
    ensures forall j: int | 0 <= j < |mem| ::
      SaveRegisters(mem, regs, base, count)[j] == if base <= j < base + count then regs[j - base] else mem[j]
  {
    if count > 0 {
      SaveRegistersEffect(mem, regs, base, count - 1);
      var prev := SaveRegisters(mem, regs, base, count - 1);
      var r := SaveRegisters(mem, regs, base, count);
      assert r == prev[base + count - 1 := regs[count - 1]];
      forall j: int | 0 <= j < |mem|
        ensures r[j] == if base <= j < base + count then regs[j - base] else mem[j]
      {
        if j != base + count - 1 {
          assert r[j] == prev[j];
        }
      }
    }
  }

  /** The load loop reads mem[base .. base + count) into regs[0 .. count) and keeps the rest. */
  lemma {:induction false} LoadRegistersEffect(regs: seq<bv8>, mem: seq<bv8>, base: int, count: nat)
    requires |regs| == RegisterCount && count <= RegisterCount
    requires 0 <= base && base + count <= |mem|
    ensures forall j: int | 0 <= j < RegisterCount ::
      LoadRegisters(regs, mem, base, count)[j] == if j < count then mem[base + j] else regs[j]
  {
    if count > 0 {
      LoadRegistersEffect(regs, mem, base, count - 1);
      var prev := LoadRegisters(regs, mem, base, count - 1);
      var r := LoadRegisters(regs, mem, base, count);
      assert r == prev[count - 1 := mem[base + count - 1]];
      forall j: int | 0 <= j < RegisterCount
        ensures r[j] == if j < count then mem[base + j] else regs[j]
      {
        if j != count - 1 {
          assert r[j] == prev[j];
        }
      }
    }
  }

  /** FX55 stores V0 .. VX at I .. I + X, leaves I where it was and changes nothing else. */
  lemma SaveEffect(c: Cpu, x: Reg, rand: bv8)
    requires Valid(c) && c.I as int + x as int < MemorySize
    ensures var r := Step(c, Misc(StoreRegs, x), rand).cpu;
      && (forall j: int | 0 <= j < MemorySize ::
            r.memory[j] == if c.I as int <= j <= c.I as int + x as int then c.V[j - c.I as int] else c.memory[j])
      && r.(memory := c.memory, pc := c.pc) == c
  {
    SaveShape(c, x, rand);
    AfterSave(c, x, Step(c, Misc(StoreRegs, x), rand).cpu);
  }

  lemma AfterSave(c: Cpu, x: Reg, r: Cpu)
    requires Valid(c) && c.I as int + x as int < MemorySize
    requires r == c.(memory := SaveRegisters(c.memory, c.V, c.I as int, x as int + 1), pc := c.pc + 2)
    ensures forall j: int | 0 <= j < MemorySize ::
      r.memory[j] == if c.I as int <= j <= c.I as int + x as int then c.V[j - c.I as int] else c.memory[j]
    ensures r.(memory := c.memory, pc := c.pc) == c
  {
    SaveRegistersEffect(c.memory, c.V, c.I as int, x as int + 1);
  }

  /** FX65 loads V0 .. VX from I .. I + X, leaves I where it was and changes nothing else. */
  lemma LoadEffect(c: Cpu, x: Reg, rand: bv8)
    requires Valid(c) && c.I as int + x as int < MemorySize
    ensures var r := Step(c, Misc(LoadRegs, x), rand).cpu;
      && (forall j: int | 0 <= j < RegisterCount ::
            r.V[j] == if j <= x as int then c.memory[c.I as int + j] else c.V[j])
      && r.(V := c.V, pc := c.pc) == c
  {
    LoadShape(c, x, rand);
    AfterLoad(c, x, Step(c, Misc(LoadRegs, x), rand).cpu);
  }

  lemma AfterLoad(c: Cpu, x: Reg, r: Cpu)
    requires Valid(c) && c.I as int + x as int < MemorySize
    requires r == c.(V := LoadRegisters(c.V, c.memory, c.I as int, x as int + 1), pc := c.pc + 2)
    ensures forall j: int | 0 <= j < RegisterCount :: r.V[j] == if j <= x as int then c.memory[c.I as int + j] else c.V[j]
    ensures r.(V := c.V, pc := c.pc) == c
  {
    LoadRegistersEffect(c.V, c.memory, c.I as int, x as int + 1);
  }

  /**
    FX55, then any change to the registers, then FX65 with the same X:
    V0 .. VX are back to their values before FX55, and the registers above
    VX keep whatever the change left in them.
   */
  lemma SaveThenLoad(c: Cpu, x: Reg, regs: seq<bv8>, rand: bv8)
    requires Valid(c) && c.I as int + x as int < MemorySize && |regs| == RegisterCount
    ensures var saved := Step(c, Misc(StoreRegs, x), rand).cpu;
      var loaded := Step(saved.(V := regs), Misc(LoadRegs, x), rand).cpu;
      && (forall j: int | 0 <= j <= x as int :: loaded.V[j] == c.V[j])
      && (forall j: int | x as int < j < RegisterCount :: loaded.V[j] == regs[j])
  {
    SaveEffect(c, x, rand);
    var saved := Step(c, Misc(StoreRegs, x), rand).cpu;
    LoadEffect(saved.(V := regs), x, rand);
  }
}
