/**
  The CHIP-8 instruction set: decoding a 16-bit opcode into an instruction,
  and the inverse encoding.

  `Decode` follows the dispatch of `Cpu::Execute`: the top digit selects the
  family, and families 0, 5, 8, 9, E and F look further at the low digits.
  An opcode the dispatch rejects (status -1) decodes to `None`. The register
  arithmetic of family 8 and the miscellaneous operations of family F are
  grouped under one constructor each, as the source groups them under one
  inner switch each.
 */
module Opcodes {
  import opened CpuDefs

  /** A register index or a 4-bit operand (X, Y, N): one hexadecimal digit. */
  type Reg = x: bv8 | x < 16

  /** A 12-bit address operand (NNN). */
  type Addr = a: bv16 | a < 0x1000

  datatype Option<T> = None | Some(value: T)

  /** The register-to-register operations 8XY0 to 8XY7 and 8XYE. */
  datatype ArithOp =
    | Move        // 8XY0
    | Or          // 8XY1
    | And         // 8XY2
    | Xor         // 8XY3
    | Add         // 8XY4
    | Sub         // 8XY5
    | ShiftRight  // 8XY6
    | SubReverse  // 8XY7
    | ShiftLeft   // 8XYE

  /** The operations FX07 to FX65, selected by the low byte. */
  datatype MiscOp =
    | GetDelay    // FX07
    | WaitKey     // FX0A
    | SetDelay    // FX15
    | SetSound    // FX18
    | AddIndex    // FX1E
    | FontChar    // FX29
    | StoreBcd    // FX33
    | StoreRegs   // FX55
    | LoadRegs    // FX65

  datatype Instr =
    | ClearScreen                       // 00E0
    | Return                            // 00EE
    | Jump(nnn: Addr)                   // 1NNN
    | Call(nnn: Addr)                   // 2NNN
    | SkipEqImm(x: Reg, nn: bv8)        // 3XNN
    | SkipNeImm(x: Reg, nn: bv8)        // 4XNN
    | SkipEqReg(x: Reg, y: Reg)         // 5XY0
    | LoadImm(x: Reg, nn: bv8)          // 6XNN
    | AddImm(x: Reg, nn: bv8)           // 7XNN
    | Arith(aop: ArithOp, x: Reg, y: Reg) // 8XYN
    | SkipNeReg(x: Reg, y: Reg)         // 9XY0
    | SetIndex(nnn: Addr)               // ANNN
    | JumpOffset(nnn: Addr)             // BNNN
    | Random(x: Reg, nn: bv8)           // CXNN
    | Draw(x: Reg, y: Reg, n: Reg)      // DXYN
    | SkipKey(x: Reg)                   // EX9E
    | SkipNoKey(x: Reg)                 // EXA1
    | Misc(mop: MiscOp, x: Reg)         // FXNN

  /**
    The opcodes for which execution reports an unsupported opcode, stated on
    the opcode itself, family by family.
   */
  predicate Unsupported(op: bv16)
  {
    var family := op >> 12;
    var n := op & 0xF;
    var low := op & 0xFF;
    || (family == 0x0 && op != 0x00E0 && op != 0x00EE)
    || ((family == 0x5 || family == 0x9) && n != 0)
    || (family == 0x8 && n > 7 && n != 0xE)
    || (family == 0xE && low != 0x9E && low != 0xA1)
    || (family == 0xF && low != 0x07 && low != 0x0A && low != 0x15 && low != 0x18
        && low != 0x1E && low != 0x29 && low != 0x33 && low != 0x55 && low != 0x65)
  }

  /** The four hexadecimal digits of an opcode, most significant first. */
  datatype Digits = Digits(d3: Reg, d2: Reg, d1: Reg, d0: Reg)

  /** The opcode with the given digits. */
  function Assemble(w: Digits): bv16
  {
    ((w.d3 as bv16) << 12) | ((w.d2 as bv16) << 8) | ((w.d1 as bv16) << 4) | (w.d0 as bv16)
  }

  /** The digits of an opcode, as the field macros extract them. */
  function DigitsOf(op: bv16): Digits
  {
    Digits(Nibble(op, 3), Nibble(op, 2), Nibble(op, 1), Nibble(op, 0))
  }

  /** The opcode and its digits determine each other. */
  lemma DigitsRoundTrip(op: bv16, w: Digits)
    ensures Assemble(DigitsOf(op)) == op
    ensures DigitsOf(Assemble(w)) == w
  {
    NibblesReassemble(op);
  }

  /** NN: the low two digits, as `GET_BYTE(opcode, 0)` reads them. */
  function Low(w: Digits): bv8
  {
    (w.d1 << 4) | w.d0
  }

  /** NNN: the low three digits, as `GET_NNN(opcode)` reads them. */
  function Address(w: Digits): Addr
  {
    Assemble(Digits(0, w.d2, w.d1, w.d0))
  }

  /** The instruction an opcode denotes, or `None` where the dispatch returns -1. */
  function Decode(op: bv16): Option<Instr>
  {
    Dispatch(DigitsOf(op))
  }

  /**
    The switch of `Cpu::Execute` on the top digit. Comparing the whole opcode
    with 00E0 or 00EE is comparing all four digits.
   */
  function Dispatch(w: Digits): Option<Instr>
  {
    var x := w.d2;
    var y := w.d1;
    if w.d3 == 0x0 then
      if w == Digits(0x0, 0x0, 0xE, 0x0) then Some(ClearScreen)
      else if w == Digits(0x0, 0x0, 0xE, 0xE) then Some(Return)
      else None
    else if w.d3 == 0x1 then Some(Jump(Address(w)))
    else if w.d3 == 0x2 then Some(Call(Address(w)))
    else if w.d3 == 0x3 then Some(SkipEqImm(x, Low(w)))
    else if w.d3 == 0x4 then Some(SkipNeImm(x, Low(w)))
    else if w.d3 == 0x5 then
      if w.d0 != 0 then None else Some(SkipEqReg(x, y))
    else if w.d3 == 0x6 then Some(LoadImm(x, Low(w)))
    else if w.d3 == 0x7 then Some(AddImm(x, Low(w)))
    else if w.d3 == 0x8 then
      match ArithOpOf(w.d0)
      case None => None
      case Some(aop) => Some(Arith(aop, x, y))
    else if w.d3 == 0x9 then
      if w.d0 != 0 then None else Some(SkipNeReg(x, y))
    else if w.d3 == 0xA then Some(SetIndex(Address(w)))
    else if w.d3 == 0xB then Some(JumpOffset(Address(w)))
    else if w.d3 == 0xC then Some(Random(x, Low(w)))
    else if w.d3 == 0xD then Some(Draw(x, y, w.d0))
    else if w.d3 == 0xE then
      if Low(w) == 0x9E then Some(SkipKey(x))
      else if Low(w) == 0xA1 then Some(SkipNoKey(x))
      else None
    else
      match MiscOpOf(Low(w))
      case None => None
      case Some(mop) => Some(Misc(mop, x))
  }

  /** The inner switch of family 8, on the last digit. */
  function ArithOpOf(n: Reg): Option<ArithOp>
  {
    if n == 0x0 then Some(Move)
    else if n == 0x1 then Some(Or)
    else if n == 0x2 then Some(And)
    else if n == 0x3 then Some(Xor)
    else if n == 0x4 then Some(Add)
    else if n == 0x5 then Some(Sub)
    else if n == 0x6 then Some(ShiftRight)
    else if n == 0x7 then Some(SubReverse)
    else if n == 0xE then Some(ShiftLeft)
    else None
  }

  /** The last digit of a family 8 opcode. */
  function ArithCode(aop: ArithOp): Reg
  {
    match aop
    case Move => 0x0
    case Or => 0x1
    case And => 0x2
    case Xor => 0x3
    case Add => 0x4
    case Sub => 0x5
    case ShiftRight => 0x6
    case SubReverse => 0x7
    case ShiftLeft => 0xE
  }

  /** The inner switch of family 8 and its codes are inverse: digits 0 to 7 and E, and no others. */
  lemma ArithCodeRoundTrip(aop: ArithOp, n: Reg)
    ensures ArithOpOf(ArithCode(aop)) == Some(aop)
    ensures ArithOpOf(n) == Some(aop) ==> ArithCode(aop) == n
    ensures ArithOpOf(n).None? <==> (n > 7 && n != 0xE)
  {
  }

  /** The inner switch of family F, on the low byte. */
  function MiscOpOf(nn: bv8): Option<MiscOp>
  {
    if nn == 0x07 then Some(GetDelay)
    else if nn == 0x0A then Some(WaitKey)
    else if nn == 0x15 then Some(SetDelay)
    else if nn == 0x18 then Some(SetSound)
    else if nn == 0x1E then Some(AddIndex)
    else if nn == 0x29 then Some(FontChar)
    else if nn == 0x33 then Some(StoreBcd)
    else if nn == 0x55 then Some(StoreRegs)
    else if nn == 0x65 then Some(LoadRegs)
    else None
  }

  /** The low byte of a family F opcode. */
  function MiscCode(mop: MiscOp): bv8
  {
    match mop
    case GetDelay => 0x07
    case WaitKey => 0x0A
    case SetDelay => 0x15
    case SetSound => 0x18
    case AddIndex => 0x1E
    case FontChar => 0x29
    case StoreBcd => 0x33
    case StoreRegs => 0x55
    case LoadRegs => 0x65
  }

  /** The inner switch of family F and its codes are inverse. */
  lemma MiscCodeRoundTrip(mop: MiscOp, nn: bv8)
    ensures MiscOpOf(MiscCode(mop)) == Some(mop)
    ensures MiscOpOf(nn) == Some(mop) ==> MiscCode(mop) == nn
  {
  }

  /** Digits X, NN: the shape of families 3, 4, 6, 7, C, E and F. */
  function WithByte(family: Reg, x: Reg, nn: bv8): Digits
  {
    Digits(family, x, nn >> 4, nn & 0xF)
  }

  /** Digits NNN: the shape of families 1, 2, A and B. */
  function WithAddress(family: Reg, nnn: Addr): Digits
  {
    Digits(family, Nibble(nnn, 2), Nibble(nnn, 1), Nibble(nnn, 0))
  }

  /** NN written into digits reads back as NN. */
  lemma ByteWritten(family: Reg, x: Reg, nn: bv8)
    ensures Low(WithByte(family, x, nn)) == nn
  {
  }

  /** Any digits are their family, X and NN. */
  lemma ByteRead(w: Digits)
    ensures WithByte(w.d3, w.d2, Low(w)) == w
  {
  }

  /** NNN written into digits reads back as NNN. */
  lemma AddressWritten(family: Reg, nnn: Addr)
    ensures Address(WithAddress(family, nnn)) == nnn
  {
    NibblesReassemble(nnn);
  }

  /** Digits with a given family are that family with their NNN. */
  lemma AddressRead(family: Reg, w: Digits)
    requires w.d3 == family
    ensures WithAddress(family, Address(w)) == w
  {
  }

  /** The digits of the opcode that denotes an instruction. */
  function Spell(ins: Instr): Digits
  {
    match ins
    case ClearScreen => Digits(0x0, 0x0, 0xE, 0x0)
    case Return => Digits(0x0, 0x0, 0xE, 0xE)
    case Jump(nnn) => WithAddress(0x1, nnn)
    case Call(nnn) => WithAddress(0x2, nnn)
    case SkipEqImm(x, nn) => WithByte(0x3, x, nn)
    case SkipNeImm(x, nn) => WithByte(0x4, x, nn)
    case SkipEqReg(x, y) => Digits(0x5, x, y, 0x0)
    case LoadImm(x, nn) => WithByte(0x6, x, nn)
    case AddImm(x, nn) => WithByte(0x7, x, nn)
    case Arith(aop, x, y) => Digits(0x8, x, y, ArithCode(aop))
    case SkipNeReg(x, y) => Digits(0x9, x, y, 0x0)
    case SetIndex(nnn) => WithAddress(0xA, nnn)
    case JumpOffset(nnn) => WithAddress(0xB, nnn)
    case Random(x, nn) => WithByte(0xC, x, nn)
    case Draw(x, y, n) => Digits(0xD, x, y, n)
    case SkipKey(x) => WithByte(0xE, x, 0x9E)
    case SkipNoKey(x) => WithByte(0xE, x, 0xA1)
    case Misc(mop, x) => WithByte(0xF, x, MiscCode(mop))
  }

  /** The opcode that denotes an instruction. */
  function Encode(ins: Instr): bv16
  {
    Assemble(Spell(ins))
  }

  /** Instructions whose operands are whole digits: the family fixes the rest. */
  predicate DigitShaped(ins: Instr)
  {
    ins.ClearScreen? || ins.Return? || ins.SkipEqReg? || ins.SkipNeReg? || ins.Draw?
  }

  /** Instructions of the shape _NNN. */
  predicate AddressShaped(ins: Instr)
  {
    ins.Jump? || ins.Call? || ins.SetIndex? || ins.JumpOffset?
  }

  /** Instructions of the shape _XNN with a free NN. */
  predicate ByteShaped(ins: Instr)
  {
    ins.SkipEqImm? || ins.SkipNeImm? || ins.LoadImm? || ins.AddImm? || ins.Random?
  }

  lemma DispatchSpellDigits(ins: Instr)
    requires DigitShaped(ins)
    ensures Dispatch(Spell(ins)) == Some(ins)
  {
  }

  lemma DispatchSpellAddress(ins: Instr)
    requires AddressShaped(ins)
    ensures Dispatch(Spell(ins)) == Some(ins)
  {
    AddressWritten(Spell(ins).d3, ins.nnn);
  }

  lemma DispatchSpellByte(ins: Instr)
    requires ByteShaped(ins)
    ensures Dispatch(Spell(ins)) == Some(ins)
  {
    ByteWritten(Spell(ins).d3, ins.x, ins.nn);
  }

  lemma DispatchSpellKey(ins: Instr)
    requires ins.SkipKey? || ins.SkipNoKey?
    ensures Dispatch(Spell(ins)) == Some(ins)
  {
    ByteWritten(0xE, ins.x, if ins.SkipKey? then 0x9E else 0xA1);
  }

  lemma DispatchSpellArith(ins: Instr)
    requires ins.Arith?
    ensures Dispatch(Spell(ins)) == Some(ins)
  {
    ArithCodeRoundTrip(ins.aop, 0);
  }

  lemma DispatchSpellMisc(ins: Instr)
    requires ins.Misc?
    ensures Dispatch(Spell(ins)) == Some(ins)
  {
    ByteWritten(0xF, ins.x, MiscCode(ins.mop));
    MiscCodeRoundTrip(ins.mop, 0);
  }

  /** Dispatching on the digits an instruction is spelled with yields that instruction. */
  lemma DispatchSpell(ins: Instr)
    ensures Dispatch(Spell(ins)) == Some(ins)
  {
    if DigitShaped(ins) {
      DispatchSpellDigits(ins);
    } else if AddressShaped(ins) {
      DispatchSpellAddress(ins);
    } else if ByteShaped(ins) {
      DispatchSpellByte(ins);
    } else if ins.SkipKey? || ins.SkipNoKey? {
      DispatchSpellKey(ins);
    } else if ins.Arith? {
      DispatchSpellArith(ins);
    } else {
      DispatchSpellMisc(ins);
    }
  }

  lemma SpellDispatchDigits(w: Digits)
    requires w.d3 in {0x0, 0x5, 0x9, 0xD} && Dispatch(w).Some?
    ensures Spell(Dispatch(w).value) == w
  {
  }

  lemma SpellDispatchAddress(w: Digits)
    requires w.d3 in {0x1, 0x2, 0xA, 0xB}
    ensures Dispatch(w).Some? && Spell(Dispatch(w).value) == w
  {
    AddressRead(w.d3, w);
  }

  lemma SpellDispatchByte(w: Digits)
    requires w.d3 in {0x3, 0x4, 0x6, 0x7, 0xC}
    ensures Dispatch(w).Some? && Spell(Dispatch(w).value) == w
  {
    ByteRead(w);
    DispatchByteFamily(w);
    SpellByte(Dispatch(w).value);
  }

  /** The switch sends the families of shape _XNN to an instruction of that shape with the same family, X and NN. */
  lemma DispatchByteFamily(w: Digits)
    requires w.d3 in {0x3, 0x4, 0x6, 0x7, 0xC}
    ensures Dispatch(w).Some? && ByteShaped(Dispatch(w).value)
    ensures var ins := Dispatch(w).value;
      ins.x == w.d2 && ins.nn == Low(w) && Spell(ins).d3 == w.d3
  {
  }

  /** An instruction of shape _XNN is spelled with its family, X and NN. */
  lemma SpellByte(ins: Instr)
    requires ByteShaped(ins)
    ensures Spell(ins) == WithByte(Spell(ins).d3, ins.x, ins.nn)
  {
    match ins
    case SkipEqImm(x, nn) => assert Spell(ins) == WithByte(0x3, x, nn);
    case SkipNeImm(x, nn) => assert Spell(ins) == WithByte(0x4, x, nn);
    case LoadImm(x, nn) => assert Spell(ins) == WithByte(0x6, x, nn);
    case AddImm(x, nn) => assert Spell(ins) == WithByte(0x7, x, nn);
    case Random(x, nn) => assert Spell(ins) == WithByte(0xC, x, nn);
  }

  lemma SpellDispatchKey(w: Digits)
    requires w.d3 == 0xE && Dispatch(w).Some?
    ensures Spell(Dispatch(w).value) == w
  {
    ByteRead(w);
  }

  lemma SpellDispatchArith(w: Digits)
    requires w.d3 == 0x8 && Dispatch(w).Some?
    ensures Spell(Dispatch(w).value) == w
  {
    ArithCodeRoundTrip(Dispatch(w).value.aop, w.d0);
  }

  lemma SpellDispatchMisc(w: Digits)
    requires w.d3 == 0xF && Dispatch(w).Some?
    ensures Spell(Dispatch(w).value) == w
  {
    ByteRead(w);
    MiscCodeRoundTrip(Dispatch(w).value.mop, Low(w));
  }

  /** Spelling a dispatched instruction gives back the digits it was dispatched on. */
  lemma SpellDispatch(w: Digits)
    requires Dispatch(w).Some?
    ensures Spell(Dispatch(w).value) == w
  {
    if w.d3 in {0x0, 0x5, 0x9, 0xD} {
      SpellDispatchDigits(w);
    } else if w.d3 in {0x1, 0x2, 0xA, 0xB} {
      SpellDispatchAddress(w);
    } else if w.d3 == 0x8 {
      SpellDispatchArith(w);
    } else if w.d3 == 0xF {
      SpellDispatchMisc(w);
    } else if w.d3 == 0xE {
      SpellDispatchKey(w);
    } else {
      SpellDispatchByte(w);
    }
  }

  /** Decoding fails exactly on the opcodes the dispatch does not support. */
  lemma DecodeUnsupported(op: bv16)
    ensures Decode(op).None? <==> Unsupported(op)
  {
    OpcodeFields(op);
    ArithCodeRoundTrip(Move, Nibble(op, 0));
  }

  /** The parts of an opcode that `Unsupported` looks at, read off its digits. */
  lemma OpcodeFields(op: bv16)
    ensures op >> 12 == Nibble(op, 3) as bv16
    ensures op & 0xF == Nibble(op, 0) as bv16
    ensures op & 0xFF == Low(DigitsOf(op)) as bv16
    ensures op == 0x00E0 <==> DigitsOf(op) == Digits(0x0, 0x0, 0xE, 0x0)
    ensures op == 0x00EE <==> DigitsOf(op) == Digits(0x0, 0x0, 0xE, 0xE)
  {
    DigitsRoundTrip(op, DigitsOf(op));
  }

  /** Decoding loses nothing: a decodable opcode is the encoding of its instruction. */
  lemma EncodeDecode(op: bv16)
    requires !Unsupported(op)
    ensures Decode(op).Some? && Encode(Decode(op).value) == op
  {
    SpellDispatch(DigitsOf(op));
    DigitsRoundTrip(op, DigitsOf(op));
  }

  /** Every instruction survives encoding and decoding. */
  lemma DecodeEncode(ins: Instr)
    ensures Decode(Encode(ins)) == Some(ins)
  {
    DigitsRoundTrip(Encode(ins), Spell(ins));
    DispatchSpell(ins);
  }
}
