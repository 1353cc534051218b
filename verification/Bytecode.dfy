/** Instructions of the register machine (src/chunk.h).

    An instruction is kept decoded: an opcode, the 8-bit field A and the 16-bit field D.
    B and C are the two halves of D.  The second half of the module relates this record
    to the 32-bit words that the macros of chunk.h build and take apart. */
module Bytecode {
  type Reg = r: int | 0 <= r < 0x100
  type Half = d: int | 0 <= d < 0x1_0000
  type Word = w: int | 0 <= w < 0x1_0000_0000

  const NO_REG: Reg := 0xff
  const MAX_D := 0xffff
  const JUMP_BIAS := 0x8000
  const NO_JUMP := -1  // (OP_position)-1
  const UNPATCHED: Half := 0x7fff  // D of a jump whose displacement is still NO_JUMP

  datatype ArithOp = Add | Sub | Mul | Div | Mod
  datatype CompOp = Equal | Neq | Greater | Leq | Geq | Less

  datatype Op =
    | ConstNum | Primitive | Negate | Not
    | DefineGlobal | SetGlobal | GetGlobal | Return
    | Comp(cmp: CompOp)
    | ArithVV(vv: ArithOp) | ArithVK(vk: ArithOp)
    | Jump
    | CopyJumpIf(cond: bool) | JumpIf(cond: bool)
    | Mov | GetUpval | SetUpval

  datatype Instr = Instr(op: Op, a: Reg, d: Half) {
    function B(): Reg { d % 0x100 }
    function C(): Reg { d / 0x100 }

    /** The displacement RJump. */
    function Disp(): int { d - JUMP_BIAS }
  }

  function InstrABC(op: Op, a: Reg, b: Reg, c: Reg): Instr {
    Instr(op, a, b + 0x100 * c)
  }

  /** OP_AJump: the displacement is biased and cut to 16 bits. */
  function InstrAJ(op: Op, a: Reg, j: Half): Instr {
    Instr(op, a, (j + JUMP_BIAS) % 0x1_0000)
  }

  /** Value after a C conversion to uint8_t. */
  function Cast8(n: int): Reg { n % 0x100 }

  /** Value after a C conversion to uint16_t. */
  function Cast16(n: int): Half { n % 0x1_0000 }

  // ----- 32-bit words -----

  function Code(op: Op): (c: Reg) {
    match op
    case ConstNum => 0
    case Primitive => 1
    case Negate => 2
    case Not => 3
    case DefineGlobal => 4
    case SetGlobal => 5
    case GetGlobal => 6
    case Return => 7
    case Comp(c) =>
      (match c case Equal => 8 case Neq => 9 case Greater => 10 case Leq => 11 case Geq => 12 case Less => 13)
    case ArithVV(o) => 14 + ArithIndex(o)
    case ArithVK(o) => 19 + ArithIndex(o)
    case Jump => 24
    case CopyJumpIf(cond) => if cond then 26 else 25
    case JumpIf(cond) => if cond then 28 else 27
    case Mov => 29
    case GetUpval => 31
    case SetUpval => 32
  }

  function ArithIndex(op: ArithOp): nat {
    match op case Add => 0 case Sub => 1 case Mul => 2 case Div => 3 case Mod => 4
  }

  function WordOf(i: Instr): Word {
    Code(i.op) + 0x100 * i.a + 0x1_0000 * i.d
  }

  // The accessors OP, RA, RD, RB and RC.
  function WordOp(w: Word): Reg { w % 0x100 }
  function WordA(w: Word): Reg { w % 0x1_0000 / 0x100 }
  function WordD(w: Word): Half { w / 0x1_0000 }
  function WordB(w: Word): Reg { WordD(w) % 0x100 }
  function WordC(w: Word): Reg { WordD(w) / 0x100 }

  /** setbc on a little-endian word: byte ofs is replaced by x. */
  function SetByte(w: Word, x: Reg, ofs: nat): Word
    requires ofs < 4
  {
    if ofs == 0 then w - WordOp(w) + x
    else if ofs == 1 then w - 0x100 * WordA(w) + 0x100 * x
    else if ofs == 2 then w - 0x1_0000 * WordB(w) + 0x1_0000 * x
    else w - 0x100_0000 * WordC(w) + 0x100_0000 * x
  }

  /** setbc_d. */
  function SetD(w: Word, d: Half): Word {
    w - 0x1_0000 * WordD(w) + 0x1_0000 * d
  }

  /** Distinct opcodes have distinct codes, so a word determines its instruction. */
  lemma CodeInjective(o: Op, p: Op)
    requires Code(o) == Code(p)
    ensures o == p
  {
    assert o.ArithVV? ==> o.vv.Add? || o.vv.Sub? || o.vv.Mul? || o.vv.Div? || o.vv.Mod?;
    assert o.ArithVK? ==> o.vk.Add? || o.vk.Sub? || o.vk.Mul? || o.vk.Div? || o.vk.Mod?;
    assert p.ArithVV? ==> p.vv.Add? || p.vv.Sub? || p.vv.Mul? || p.vv.Div? || p.vv.Mod?;
    assert p.ArithVK? ==> p.vk.Add? || p.vk.Sub? || p.vk.Mul? || p.vk.Div? || p.vk.Mod?;
  }

  lemma DivMod(b: int, q: int, r: int)
    requires 0 <= r < b && (b == 0x100 || b == 0x1_0000)
    ensures (b * q + r) / b == q && (b * q + r) % b == r
  {
  }

  lemma WordFields(i: Instr)
    ensures WordOp(WordOf(i)) == Code(i.op) && WordA(WordOf(i)) == i.a && WordD(WordOf(i)) == i.d
    ensures WordB(WordOf(i)) == i.B() && WordC(WordOf(i)) == i.C()
  {
    var op := Code(i.op);
    DivMod(0x100, i.a + 0x100 * i.d, op);
    assert WordOf(i) == 0x100 * (i.a + 0x100 * i.d) + op;
    DivMod(0x1_0000, i.d, 0x100 * i.a + op);
    DivMod(0x100, i.a, op);
  }

  lemma WordInjective(i: Instr, j: Instr)
    requires WordOf(i) == WordOf(j)
    ensures i == j
  {
    WordFields(i);
    WordFields(j);
    CodeInjective(i.op, j.op);
  }

  /** Patching a word in place is the record update of its instruction. */
  lemma PatchWord(i: Instr, op: Op, a: Reg, b: Reg, c: Reg, d: Half)
    ensures SetByte(WordOf(i), Code(op), 0) == WordOf(i.(op := op))
    ensures SetByte(WordOf(i), a, 1) == WordOf(i.(a := a))
    ensures SetByte(WordOf(i), b, 2) == WordOf(i.(d := b + 0x100 * i.C()))
    ensures SetByte(WordOf(i), c, 3) == WordOf(i.(d := i.B() + 0x100 * c))
    ensures SetD(WordOf(i), d) == WordOf(i.(d := d))
  {
    WordFields(i);
  }

  /** Every distance that passes the MAX_D check is decoded exactly; UNPATCHED is what
      `emit_AJ(p, OP_JUMP, a, (uint16_t)NO_JUMP)` leaves, and only a jump to itself
      would be given the same word. */
  lemma DisplacementExact(src: nat, dest: nat)
    requires 0 <= dest - (src + 1) + JUMP_BIAS <= MAX_D
    ensures var d: Half := dest - (src + 1) + JUMP_BIAS;
            && src + 1 + Instr(Jump, 0, d).Disp() == dest
            && (d == UNPATCHED <==> dest == src)
    ensures forall a: Reg :: InstrAJ(Jump, a, Cast16(NO_JUMP)).d == UNPATCHED
  {
  }
}
