/**
  Constants, opcode field macros and the machine-state shape of the CHIP-8
  interpreter core.

  The machine is an immutable record: every operation of the core returns a
  new record instead of mutating one in place. Bytes are `bv8` so that the
  source's XOR, AND, shift and unsigned-char wrap-around are the bit-vector
  operators; the 16-bit address register and program counter are `bv16`, so
  `unsigned short` wrap-around is `bv16` arithmetic.
 */
module CpuDefs {

  /** Display width and height in pixels. */
  const W: nat := 64
  const H: nat := 32

  const MemorySize: nat := 4096
  /** First address of a loaded program; also the initial program counter. */
  const MemoryBegin: nat := 0x200
  /** First address of the built-in hexadecimal font. */
  const FontBegin: nat := 0x50
  /** Sixteen glyphs of five bytes. */
  const FontSize: nat := 80
  const SpriteWidth: nat := 8
  const NumberOfKeys: nat := 16
  const RegisterCount: nat := 16
  /** One bit per pixel, eight pixels per byte. */
  const DisplaySize: nat := W * H / 8
  /** The call depth at which a further call is refused. */
  const StackLimit: nat := 16

  /**
    GET_NIBBLE(op, k): the k-th hexadecimal digit of op, counted from the
    least significant. The body spells out the four shift distances so that
    each use carries a constant shift; the contract bounds the digit, and
    NibblesReassemble states that the four digits make up the opcode.
   */
  function Nibble(op: bv16, k: nat): (r: bv8)
    requires k < 4
    ensures r < 16
  {
    if k == 0 then (op & 0xF) as bv8
    else if k == 1 then ((op >> 4) & 0xF) as bv8
    else if k == 2 then ((op >> 8) & 0xF) as bv8
    else (op >> 12) as bv8
  }

  /** GET_BYTE(op, k): the k-th byte of op, counted from the least significant. */
  function Byte(op: bv16, k: nat): (r: bv8)
    requires k < 2
  {
    if k == 0 then (op & 0xFF) as bv8 else (op >> 8) as bv8
  }

  /** GET_NNN(op): the low twelve bits of op, the address operand. */
  function NNN(op: bv16): (r: bv16)
    ensures r < 0x1000
    ensures (op & 0xF000) | r == op
  {
    op & 0xFFF
  }

  /** The four hexadecimal digits of an opcode reassemble to the opcode: the field macros lose nothing. */
  lemma NibblesReassemble(op: bv16)
    ensures op == ((Nibble(op, 3) as bv16) << 12) | ((Nibble(op, 2) as bv16) << 8)
                  | ((Nibble(op, 1) as bv16) << 4) | (Nibble(op, 0) as bv16)
  {
  }

  /** Each byte is its two digits side by side. */
  lemma ByteDigits(op: bv16)
    ensures Byte(op, 0) == (Nibble(op, 1) << 4) | Nibble(op, 0)
    ensures Byte(op, 1) == (Nibble(op, 3) << 4) | Nibble(op, 2)
  {
  }

  /** The opcode with high byte hi and low byte lo, as the fetch assembles it. */
  function Join(hi: bv8, lo: bv8): (op: bv16)
    ensures Byte(op, 1) == hi && Byte(op, 0) == lo
  {
    ((hi as bv16) << 8) | (lo as bv16)
  }

  /** An opcode is determined by its two bytes. */
  lemma BytesDetermine(a: bv16, b: bv16)
    requires Byte(a, 0) == Byte(b, 0) && Byte(a, 1) == Byte(b, 1)
    ensures a == b
  {
  }

  /** The low byte, read as a number, is sixteen times the second digit plus the first. */
  lemma LowByteValue(op: bv16)
    ensures Byte(op, 0) as int == 16 * Nibble(op, 1) as int + Nibble(op, 0) as int
  {
  }

  /** Every pixel index of the W x H screen falls inside the packed display. */
  lemma PixelByteInRange(p: nat)
    requires p < W * H
    ensures DisplaySize == 256 && p / 8 < DisplaySize
  {
  }

  /** The font region [0x50, 0xA0) lies below the program region that starts at 0x200. */
  lemma FontBelowProgram()
    ensures FontBegin + FontSize == 0xA0 && FontBegin + FontSize <= MemoryBegin
  {
  }

  /**
    The machine state. `stack` holds return addresses, last element on top;
    the source stores them as 16-bit `short`s, which `bv16` represents bit for
    bit. `keys[i] != 0` means hexadecimal key i is held down.
   */
  datatype Cpu = Cpu(
    memory: seq<bv8>,
    V: seq<bv8>,
    I: bv16,
    pc: bv16,
    stack: seq<bv16>,
    delayTimer: bv8,
    display: seq<bv8>,
    keys: seq<bv8>,
    soundTimer: bv8)

  /** The fixed shape of the state, plus the call-depth bound that execution maintains. */
  predicate Valid(c: Cpu)
  {
    && |c.memory| == MemorySize
    && |c.V| == RegisterCount
    && |c.stack| <= StackLimit
    && |c.display| == DisplaySize
    && |c.keys| == NumberOfKeys
  }
}
