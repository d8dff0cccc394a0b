/**
  Properties of the parts of the interpreter around `Execute`: the timers,
  `Init`, the loader and the first fetch after loading a program.
 */
module SystemProperties {
  import opened CpuDefs
  import opened Opcodes
  import opened Screen
  import opened Interpreter

  // ---------------------------------------------------------------------
  // Timers

  /** A tick lowers a running timer by one and leaves a stopped one at zero. */
  lemma TickCount(t: bv8)
    ensures Tick(t) as int == if t as int > 0 then t as int - 1 else 0
  {
    if t != 0 {
      assert (t - 1) + 1 == t;
    }
  }

  /** The number a timer shows after k ticks: k less, but never below zero. */
  function AfterTicks(t: bv8, k: nat): int
  {
    if t as int > k then t as int - k else 0
  }

  /** k calls of UpdateTimers count both timers down by k, stopping at zero, and touch nothing else. */
  lemma {:induction false} TicksCount(c: Cpu, k: nat)
    ensures Ticks(c, k).delayTimer as int == AfterTicks(c.delayTimer, k)
    ensures Ticks(c, k).soundTimer as int == AfterTicks(c.soundTimer, k)
    ensures Ticks(c, k).(delayTimer := c.delayTimer, soundTimer := c.soundTimer) == c
  {
    if k > 0 {
      TicksCount(c, k - 1);
      var prev := Ticks(c, k - 1);
      TickCount(prev.delayTimer);
      TickCount(prev.soundTimer);
    }
  }

  /** After as many ticks as a timer's value it has stopped, and further ticks keep it at zero. */
  lemma TimersRunOut(c: Cpu, k: nat)
    requires k >= c.delayTimer as int && k >= c.soundTimer as int
    ensures Ticks(c, k).delayTimer == 0 && Ticks(c, k).soundTimer == 0
    ensures UpdateTimers(Ticks(c, k)) == Ticks(c, k)
  {
    TicksCount(c, k);
    var d := Ticks(c, k);
    assert d.delayTimer as int == 0 && d.soundTimer as int == 0;
  }

  // ---------------------------------------------------------------------
  // Init

  /**
    Init leaves a well-formed machine with zeroed memory, registers and keys,
    a dark screen, pc at 0x200, I and both timers zero; the stack is the one
    it was given.
   */
  lemma InitState(c: Cpu)
    requires Valid(c)
    ensures var r := Init(c);
      && Valid(r)
      && r.stack == c.stack
      && r.pc == 0x200 && r.I == 0 && r.delayTimer == 0 && r.soundTimer == 0
      && (forall j: int | 0 <= j < MemorySize :: r.memory[j] == 0)
      && (forall j: int | 0 <= j < RegisterCount :: r.V[j] == 0)
      && (forall j: int | 0 <= j < NumberOfKeys :: r.keys[j] == 0)
      && (forall p: bv16 | p < 2048 :: !Lit(r.display, p))
  {
  }

  /** Init forgets everything but the stack: two machines with the same stack initialise alike, and Init is idempotent. */
  lemma InitForgets(c: Cpu, d: Cpu)
    requires c.stack == d.stack
    ensures Init(c) == Init(d)
    ensures Init(Init(c)) == Init(c)
  {
  }

  /** The frame rendered right after Init is entirely black. */
  method RenderAfterInit(c: Cpu) returns (frame: seq<bv32>)
    requires Valid(c)
    ensures |frame| == W * H
    ensures forall p: bv16 | p < 2048 :: frame[p] == 0
  {
    InitState(c);
    frame := RenderTo(Init(c).display);
  }

  // ---------------------------------------------------------------------
  // Loading a program

  /**
    The byte at address j after loading: the font at [0x50, 0xA0) in any
    case; when the file opened, the program at [0x200, 0x200 + |rom|) and
    the end-of-file byte 0xFF right after it; the old memory elsewhere.
   */
  function LoadedByte(mem: seq<bv8>, fileOpened: bool, rom: seq<bv8>, j: int): bv8
    requires 0 <= j < |mem|
  {
    if FontBegin <= j < FontBegin + FontSize then FontSet[j - FontBegin]
    else if fileOpened && MemoryBegin <= j < MemoryBegin + |rom| then rom[j - MemoryBegin]
    else if fileOpened && j == MemoryBegin + |rom| then 0xFF
    else mem[j]
  }

  /** Splice writes s at [at, at + |s|) and keeps every other byte. */
  lemma SpliceAt(mem: seq<bv8>, at: nat, s: seq<bv8>, j: int)
    requires at + |s| <= |mem| && 0 <= j < |mem|
    ensures Splice(mem, at, s)[j] == if at <= j < at + |s| then s[j - at] else mem[j]
  {
  }

  /** LoadImage reports whether the file opened and changes nothing but memory. */
  lemma LoadImageFrame(c: Cpu, fileOpened: bool, rom: seq<bv8>)
    requires Valid(c) && MemoryBegin + |rom| + 1 <= MemorySize
    ensures var r := LoadImage(c, fileOpened, rom);
      r.ok == fileOpened && r.cpu.(memory := c.memory) == c
  {
  }

  /** The byte LoadImage leaves at address j is the one LoadedByte describes. */
  lemma LoadedByteAt(c: Cpu, fileOpened: bool, rom: seq<bv8>, j: int)
    requires Valid(c) && MemoryBegin + |rom| + 1 <= MemorySize && 0 <= j < MemorySize
    ensures LoadImage(c, fileOpened, rom).cpu.memory[j] == LoadedByte(c.memory, fileOpened, rom, j)
  {
    var font := Splice(c.memory, FontBegin, FontSet);
    SpliceAt(c.memory, FontBegin, FontSet, j);
    if fileOpened {
      SpliceAt(font, MemoryBegin, rom + [0xFF], j);
      assert LoadImage(c, fileOpened, rom).cpu.memory == Splice(font, MemoryBegin, rom + [0xFF]);
    } else {
      assert LoadImage(c, fileOpened, rom).cpu.memory == font;
    }
  }

  /** LoadImage lays out memory byte by byte as LoadedByte says. */
  lemma LoadImageLayout(c: Cpu, fileOpened: bool, rom: seq<bv8>)
    requires Valid(c) && MemoryBegin + |rom| + 1 <= MemorySize
    ensures forall j: int | 0 <= j < MemorySize ::
      LoadImage(c, fileOpened, rom).cpu.memory[j] == LoadedByte(c.memory, fileOpened, rom, j)
  {
    forall j: int | 0 <= j < MemorySize
      ensures LoadImage(c, fileOpened, rom).cpu.memory[j] == LoadedByte(c.memory, fileOpened, rom, j)
    {
      LoadedByteAt(c, fileOpened, rom, j);
    }
  }

  /** The font lands at 0x50 whether or not the file opened. */
  lemma LoadImageFont(c: Cpu, fileOpened: bool, rom: seq<bv8>)
    requires Valid(c) && MemoryBegin + |rom| + 1 <= MemorySize
    ensures LoadImage(c, fileOpened, rom).cpu.memory[FontBegin..FontBegin + FontSize] == FontSet
  {
    LoadImageLayout(c, fileOpened, rom);
    var m := LoadImage(c, fileOpened, rom).cpu.memory;
    forall k: int | 0 <= k < FontSize
      ensures m[FontBegin..FontBegin + FontSize][k] == FontSet[k]
    {
      assert m[FontBegin + k] == LoadedByte(c.memory, fileOpened, rom, FontBegin + k);
    }
  }

  /**
    Booting: after Init and a successful load of a program whose first two
    bytes spell the instruction ins, the first fetch at 0x200 decodes to ins.
   */
  lemma BootFetches(c: Cpu, rom: seq<bv8>, ins: Instr)
    requires Valid(c) && 2 <= |rom| && MemoryBegin + |rom| + 1 <= MemorySize
    requires rom[0] == Byte(Encode(ins), 1) && rom[1] == Byte(Encode(ins), 0)
    ensures var b := LoadImage(Init(c), true, rom).cpu;
      b.pc == 0x200 && Decode(Fetch(b)) == Some(ins)
  {
    InitState(c);
    LoadImageFrame(Init(c), true, rom);
    LoadImageLayout(Init(c), true, rom);
    var b := LoadImage(Init(c), true, rom).cpu;
    assert b.memory[0x200] == rom[0] && b.memory[0x201] == rom[1];
    BytesDetermine(Fetch(b), Encode(ins));
    DecodeEncode(ins);
  }
}
