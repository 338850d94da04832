/** The fixed lookup tables of the assembler: the instruction table
    (mnemonic to operand shape and opcode byte) and the register table. */
module Tables {

  /** The operand shape of a mnemonic, the first entry of each row of the
      instruction table: '' (no operand), 'rr' (two registers), 'i' (one
      target) and 'rri' (two registers and an immediate or label). */
  datatype Shape = NoOperand | RegReg | Target | RegRegImm

  /** An opcode byte as two lower-case hex digits. */
  type Opcode = s: string | |s| == 2 && IsLowerHexChar(s[0]) && IsLowerHexChar(s[1]) witness "00"

  datatype InstrInfo = InstrInfo(shape: Shape, opcode: Opcode)

  const Instructions: map<string, InstrInfo> := map[
    "halt"   := InstrInfo(NoOperand, "00"),
    "nop"    := InstrInfo(NoOperand, "10"),
    "rrmovq" := InstrInfo(RegReg, "20"),
    "cmovle" := InstrInfo(RegReg, "21"),
    "cmovl"  := InstrInfo(RegReg, "22"),
    "cmove"  := InstrInfo(RegReg, "23"),
    "cmovne" := InstrInfo(RegReg, "24"),
    "cmovge" := InstrInfo(RegReg, "25"),
    "cmovg"  := InstrInfo(RegReg, "26"),
    "irmovq" := InstrInfo(RegRegImm, "30"),
    "rmmovq" := InstrInfo(RegRegImm, "40"),
    "mrmovq" := InstrInfo(RegRegImm, "50"),
    "addq"   := InstrInfo(RegReg, "60"),
    "subq"   := InstrInfo(RegReg, "61"),
    "andq"   := InstrInfo(RegReg, "62"),
    "xorq"   := InstrInfo(RegReg, "63"),
    "jmp"    := InstrInfo(Target, "70"),
    "jle"    := InstrInfo(Target, "71"),
    "jl"     := InstrInfo(Target, "72"),
    "je"     := InstrInfo(Target, "73"),
    "jne"    := InstrInfo(Target, "74"),
    "jge"    := InstrInfo(Target, "75"),
    "jg"     := InstrInfo(Target, "76"),
    "call"   := InstrInfo(Target, "80"),
    "ret"    := InstrInfo(NoOperand, "90"),
    "pushq"  := InstrInfo(RegReg, "a0"),
    "popq"   := InstrInfo(RegReg, "b0")
  ]

  /** A register code: one hex digit. */
  type RegCode = n: nat | n < 16

  const Regs2Num: map<string, RegCode> := map[
    "rax" := 0, "rcx" := 1, "rdx" := 2, "rbx" := 3,
    "rsp" := 4, "rbp" := 5, "rsi" := 6, "rdi" := 7,
    "r8" := 8, "r9" := 9, "r10" := 10, "r11" := 11,
    "r12" := 12, "r13" := 13, "r14" := 14, "nil" := 15
  ]

  /** Bytes a statement of each shape occupies: opcode byte, register byte,
      8-byte field. */
  function ShapeLength(sh: Shape): (n: nat)
    ensures n == 1 + (if sh in {RegReg, RegRegImm} then 1 else 0) + (if sh in {Target, RegRegImm} then 8 else 0)
  {
    match sh
    case NoOperand => 1
    case RegReg => 2
    case Target => 9
    case RegRegImm => 10
  }

  /** Tokens a statement of each shape occupies in the normalised stream:
      the mnemonic and its operands. */
  function ShapeTokens(sh: Shape): nat
  {
    match sh
    case NoOperand => 1
    case RegReg => 3
    case Target => 2
    case RegRegImm => 4
  }

  predicate IsLowerHexChar(c: char)
  {
    '0' <= c <= '9' || 'a' <= c <= 'f'
  }

  /** No mnemonic is empty or ends in the label terminator, so the scan
      never mistakes an instruction for a label. */
  lemma MnemonicsAreNotLabels()
    ensures forall m | m in Instructions :: m != [] && m[|m| - 1] != ':'
  {
  }

  /** Register codes are distinct, so a register nibble identifies its
      register; nil is the code 0xf. */
  lemma RegisterTableWellFormed()
    ensures forall r, s | r in Regs2Num && s in Regs2Num && r != s :: Regs2Num[r] != Regs2Num[s]
    ensures "nil" in Regs2Num && Regs2Num["nil"] == 15
  {
  }
}
