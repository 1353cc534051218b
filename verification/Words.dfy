/** The macros that build and take apart instruction words, with the shifts and the masks of the
    source (src/chunk.h). */
module Words {
  import opened Bits
  import opened Bytecode

  /** x << k, where no bit is lost. */
  function Left(x: nat, k: nat): nat { x * Pow2(k) }

  // OP_A, OP_D, OP_AD, OP_ABC and OP_AJump.
  function OpA(op: nat, a: nat): nat { Or(op, Left(a, 8)) }

  function OpD(op: nat, d: nat): nat { Or(op, Left(d, 16)) }

  function OpAD(op: nat, a: nat, d: nat): nat { Or(OpA(op, a), Left(d, 16)) }

  function OpABC(op: nat, a: nat, b: nat, c: nat): nat { OpAD(op, a, Or(b, Left(c, 8))) }

  function OpAJump(op: nat, a: nat, j: Half): nat { OpAD(op, a, Cast16(j + JUMP_BIAS)) }

  // OP, RA, RD, RB, RC and RJump.
  function OpField(x: nat): nat { And(x, 0xff) }

  function RA(x: nat): nat { Shift(And(x, 0xffff), 8) }

  function RD(x: nat): nat { Shift(x, 16) }

  function RB(x: nat): nat { And(RD(x), 0xff) }

  function RC(x: nat): nat { Shift(RD(x), 8) }

  function RJump(x: nat): int { RD(x) - JUMP_BIAS }

  /** Bits that do not meet add up. */
  lemma {:induction false} OrAbove(x: nat, y: nat, z: nat, k: nat)
    requires x < Pow2(k) && z == y * Pow2(k)
    ensures Or(x, z) == x + z
    decreases k
  {
    if k > 0 {
      var half := y * Pow2(k - 1);
      assert z == 2 * half;
      OrAbove(x / 2, y, half, k - 1);
    }
  }

  /** Shifting and masking take a sum of bits that do not meet apart again. */
  lemma {:induction false} Apart(x: nat, q: nat, r: nat, k: nat)
    requires x == q * Pow2(k) + r && r < Pow2(k)
    ensures Shift(x, k) == q && Low(x, k) == r
    decreases k
  {
    if k > 0 {
      var p := q * Pow2(k - 1);
      assert x == 2 * p + r && x / 2 == p + r / 2 && x % 2 == r % 2;
      Apart(x / 2, q, r / 2, k - 1);
    }
  }

  lemma Powers()
    ensures Pow2(8) == 0x100 && Pow2(16) == 0x1_0000
  {
    assert Pow2(4) == 16;
    assert Pow2(8) == 16 * Pow2(4);
    assert Pow2(12) == 16 * Pow2(8);
    assert Pow2(16) == 16 * Pow2(12);
  }

  /** The macros build the word of the instruction. */
  lemma Built(i: Instr)
    ensures OpAD(Code(i.op), i.a, i.d) == WordOf(i)
    ensures OpABC(Code(i.op), i.a, i.B(), i.C()) == WordOf(i)
    ensures i.a == 0 ==> OpD(Code(i.op), i.d) == WordOf(i)
    ensures i.d == 0 ==> OpA(Code(i.op), i.a) == WordOf(i)
  {
    hide Or, Pow2;
    Powers();
    OrAbove(Code(i.op), i.a, Left(i.a, 8), 8);
    OrAbove(Code(i.op) + 0x100 * i.a, i.d, Left(i.d, 16), 16);
    OrAbove(Code(i.op), i.d, Left(i.d, 16), 16);
    OrAbove(i.B(), i.C(), Left(i.C(), 8), 8);
  }

  /** The accessors give its fields back. */
  lemma TakenApart(i: Instr)
    ensures var w := WordOf(i);
      OpField(w) == Code(i.op) && RA(w) == i.a && RD(w) == i.d &&
      RB(w) == i.B() && RC(w) == i.C() && RJump(w) == i.Disp()
  {
    hide And, Low, Shift, Pow2;
    Powers();
    var w, op := WordOf(i), Code(i.op);
    Apart(w, i.a + 0x100 * i.d, op, 8);
    AndOnes(w, 8);
    Apart(w, i.d, op + 0x100 * i.a, 16);
    AndOnes(w, 16);
    Apart(op + 0x100 * i.a, i.a, op, 8);
    Apart(i.d, i.C(), i.B(), 8);
    AndOnes(i.d, 8);
  }

  lemma Biased(j: int)
    requires 0 <= j + JUMP_BIAS <= MAX_D
    ensures Cast16(Cast16(j) + JUMP_BIAS) == j + JUMP_BIAS
  {
    if j < 0 {
      assert Cast16(j) == j + 0x1_0000;
    }
  }

  /** OP_AJump and RJump are inverse on the distances that 16 bits have. */
  lemma JumpRoundTrip(op: Op, a: Reg, src: nat, dest: nat)
    requires 0 <= dest - (src + 1) + JUMP_BIAS <= MAX_D
    ensures src + 1 + RJump(OpAJump(Code(op), a, Cast16(dest - (src + 1)))) == dest
  {
    hide OpAD, RJump, Cast16, Code, WordOf;
    var d := dest - (src + 1) + JUMP_BIAS;
    Biased(dest - (src + 1));
    Built(Instr(op, a, d));
    TakenApart(Instr(op, a, d));
  }
}
