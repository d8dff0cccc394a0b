/**
  Properties of the 8XYN register arithmetic of `Interpreter.ArithRegs`.

  A byte widened to sixteen bits (`Wide`) does not overflow when two bytes
  are added, subtracted or doubled, so the sixteen-bit value is the exact
  result (a negative difference shows as a value above 0xFF): the register
  receives its low eight bits, and the carry or borrow is read off the bits
  above them. VX and VY are the values before the instruction.
 */
module ArithProperties {
  import opened CpuDefs
  import opened Opcodes
  import opened Screen
  import opened Interpreter

  /** A byte as a sixteen-bit number. */
  function Wide(b: bv8): (w: bv16)
    ensures w <= 0xFF && w as bv8 == b
  {
    b as bv16
  }

  /** Distinct register names are distinct indices. */
  lemma DistinctIndex(x: bv8, y: bv8)
    requires x != y
    ensures x as int != y as int
  {
    assert (x as int) as bv8 == x;
    assert (y as int) as bv8 == y;
  }

  /**
    For X != F, 8XYN writes VX and, when the instruction has a flag, VF, and
    nothing else; the in-place update of 8XY4 and 8XY5 starts from VX itself.
   */
  lemma ArithWrites(regs: seq<bv8>, aop: ArithOp, x: Reg, y: Reg)
    requires |regs| == RegisterCount && x != 0xF
    ensures var r := ArithRegs(regs, aop, x, y);
      && r[x] == AluResult(aop, regs[x], regs[x], regs[y])
      && r[0xF] == (match AluFlag(aop, regs[x], regs[y]) case None => regs[0xF] case Some(f) => f)
      && forall i: int | 0 <= i < RegisterCount && i != x as int && i != 0xF :: r[i] == regs[i]
  {
    DistinctIndex(x, 0xF);
  }

  /**
    For X = F the write of VX comes last and is what VF holds afterwards;
    8XY4 and 8XY5 compute it from the flag they have just written.
   */
  lemma ArithIntoFlag(regs: seq<bv8>, aop: ArithOp, y: Reg)
    requires |regs| == RegisterCount
    ensures var r := ArithRegs(regs, aop, 0xF, y);
      && r[0xF] == AluResult(aop, match AluFlag(aop, regs[0xF], regs[y]) case None => regs[0xF] case Some(f) => f,
                             regs[0xF], regs[y])
      && forall i: int | 0 <= i < 0xF :: r[i] == regs[i]
  {
  }

  /**
    8XY0 to 8XY3 set no flag, and each bit of the new VX is the bit of VY, or
    the OR, AND or exclusive OR of the bits of VX and VY in that column.
   */
  lemma LogicBits(aop: ArithOp, vx: bv8, vy: bv8, c: bv8)
    requires c < 8
    requires aop == Move || aop == Or || aop == And || aop == Xor
    ensures AluFlag(aop, vx, vy) == None
    ensures var v := AluResult(aop, vx, vx, vy);
      && (aop == Move ==> BitAt(v, c) == BitAt(vy, c))
      && (aop == Or ==> BitAt(v, c) == (BitAt(vx, c) || BitAt(vy, c)))
      && (aop == And ==> BitAt(v, c) == (BitAt(vx, c) && BitAt(vy, c)))
      && (aop == Xor ==> BitAt(v, c) == (BitAt(vx, c) != BitAt(vy, c)))
  {
    if aop == Or {
      OrBit(vx, vy, c);
    } else if aop == And {
      AndBit(vx, vy, c);
    } else if aop == Xor {
      XorBit(vx, vy, c);
    }
  }

  /** 8XY4: VX + VY mod 256, with VF = 1 exactly when the true sum exceeds 255. */
  lemma AddCarry(vx: bv8, vy: bv8)
    ensures Wide(AluResult(Add, vx, vx, vy)) == (Wide(vx) + Wide(vy)) & 0xFF
    ensures AluFlag(Add, vx, vy) == Some(if vx as int + vy as int > 255 then 1 else 0)
  {
  }

  /** 8XY5: VX - VY mod 256, with VF = 1 exactly when the subtraction does not borrow. */
  lemma SubBorrow(vx: bv8, vy: bv8)
    ensures Wide(AluResult(Sub, vx, vx, vy)) == (Wide(vx) - Wide(vy)) & 0xFF
    ensures AluFlag(Sub, vx, vy) == Some(if Wide(vx) - Wide(vy) <= 0xFF then 1 else 0)
    ensures AluFlag(Sub, vx, vy) == Some(1) <==> vy <= vx
  {
  }

  /** 8XY7: VY - VX mod 256, with VF = 1 exactly when VY - VX does not borrow. */
  lemma SubReverseBorrow(vx: bv8, vy: bv8)
    ensures Wide(AluResult(SubReverse, vx, vx, vy)) == (Wide(vy) - Wide(vx)) & 0xFF
    ensures AluFlag(SubReverse, vx, vy) == Some(if Wide(vy) - Wide(vx) <= 0xFF then 1 else 0)
    ensures AluFlag(SubReverse, vx, vy) == Some(1) <==> vx <= vy
  {
  }

  /** 8XY6: VY / 2, with VF the bit shifted out, VY mod 2; the old VX plays no part. */
  lemma ShiftRightHalves(cur: bv8, vx: bv8, vy: bv8)
    ensures AluResult(ShiftRight, cur, vx, vy) as int == vy as int / 2
    ensures AluFlag(ShiftRight, vx, vy) == Some((vy as int % 2) as bv8)
  {
  }

  /** 8XYE: 2 * VY mod 256, with VF the bit shifted out, 1 exactly when 2 * VY exceeds 255; the old VX plays no part. */
  lemma ShiftLeftDoubles(cur: bv8, vx: bv8, vy: bv8)
    ensures Wide(AluResult(ShiftLeft, cur, vx, vy)) == (Wide(vy) * 2) & 0xFF
    ensures AluFlag(ShiftLeft, vx, vy) == Some(if Wide(vy) * 2 > 0xFF then 1 else 0)
  {
  }

  /**
    8XY6 and 8XYE read only VY: two register files that differ at most in VX
    give the same result, so the old VX never matters (with X != Y).
   */
  lemma ShiftIgnoresOldVX(regs: seq<bv8>, other: seq<bv8>, aop: ArithOp, x: Reg, y: Reg)
    requires |regs| == RegisterCount && |other| == RegisterCount
    requires aop == ShiftRight || aop == ShiftLeft
    requires x != y
    requires forall i: int | 0 <= i < RegisterCount && i != x as int :: other[i] == regs[i]
    ensures ArithRegs(regs, aop, x, y) == ArithRegs(other, aop, x, y)
  {
    DistinctIndex(x, y);
  }
}
