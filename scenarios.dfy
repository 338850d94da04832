/** Whole programs through the assembler, each worked out stage by stage:
    the token lines main builds, the statement layout, the words written. */
module Scenarios {
  import opened Outcome
  import opened Tables
  import opened Numerals
  import opened HexField
  import opened Normalizer
  import opened Layout
  import opened Encoder
  import opened Assembler

  // Table entries the programs below use, each looked up once.

  lemma HaltEntry()
    ensures "halt" in Instructions && Instructions["halt"] == InstrInfo(NoOperand, "00")
  {
  }

  lemma NopEntry()
    ensures "nop" in Instructions && Instructions["nop"] == InstrInfo(NoOperand, "10")
  {
  }

  lemma RrmovqEntry()
    ensures "rrmovq" in Instructions && Instructions["rrmovq"] == InstrInfo(RegReg, "20")
  {
  }

  lemma IrmovqEntry()
    ensures "irmovq" in Instructions && Instructions["irmovq"] == InstrInfo(RegRegImm, "30")
  {
  }

  lemma JmpEntry()
    ensures "jmp" in Instructions && Instructions["jmp"] == InstrInfo(Target, "70")
  {
  }

  lemma RegisterDigits()
    ensures RegDigit("rax") == Ok('0') && RegDigit("rbx") == Ok('3') && RegDigit("nil") == Ok('f')
  {
  }

  // The field of the number 10.

  /** n zero bytes in the little-endian text. */
  lemma {:induction false} ZeroBytes(n: nat)
    ensures LeBytes(0, n) == seq(2 * n, _ => '0')
  {
    if n > 0 {
      ZeroBytes(n - 1);
      assert FixedHex(0, 2) == "00";
      assert "00" + seq(2 * (n - 1), _ => '0') == seq(2 * n, _ => '0');
    }
  }

  lemma SevenZeroBytes()
    ensures LeBytes(0, 7) == "00000000000000"
  {
    ZeroBytes(7);
  }

  lemma PairOfTen()
    ensures FixedHex(10, 2) == "0a"
  {
    assert HexDigit(10) == 'a';
    assert HexDigit(0) == '0';
    assert FixedHex(0, 1) == "0";
  }

  /** The low byte of 10 is 10 itself, and nothing is left above it. */
  lemma BytesOfTenSplit()
    ensures LeBytes(10, 8) == FixedHex(10, 2) + LeBytes(0, 7)
  {
    assert 10 % 256 == 10 && 10 / 256 == 0;
  }

  lemma BytesOfTenText()
    ensures "0a" + "00000000000000" == "0a00000000000000"
  {
  }

  lemma BytesOfTen()
    ensures LeBytes(10, 8) == "0a00000000000000"
  {
    BytesOfTenSplit();
    PairOfTen();
    SevenZeroBytes();
    BytesOfTenText();
  }

  /** bige2lite(10): the byte 0a first, then seven zero bytes. */
  lemma FieldOfTen()
    ensures LittleEndianHex(10) == "0a00000000000000"
  {
    assert Pow16(1) == 16;
    PowMonotone(1, 16);
    LittleEndianHexIsLeBytes(10);
    BytesOfTen();
  }

  lemma TenParsed()
    ensures IsNumeral("10") && ParseImmediate("10") == Ok(10)
  {
    assert IsDecimal("10");
    assert DecValue("10") == 10 by { assert "10"[..1] == "1"; }
  }

  // The first program.

  /** `irmovq $10, %rax`, `rrmovq %rax, %rbx`, `halt`, as the token lines
      left after comment and symbol filtering. */
  const LoadMoveHalt: seq<seq<string>> := [["irmovq", "10", "rax"], ["rrmovq", "rax", "rbx"], ["halt"]]

  const LoadMoveHaltTokens: seq<string> := ["irmovq", "nil", "rax", "10", "rrmovq", "rax", "rbx", "halt"]

  /** Its statements: 10, 2 and 1 bytes at addresses 0, 10 and 12. */
  const LoadStatement := Sentence(0, 10, 10, "", "irmovq", "nil", "rax", 10, false)
  const MoveStatement := Sentence(10, 12, 2, "", "rrmovq", "rax", "rbx", 0, false)
  const StopStatement := Sentence(12, 13, 1, "", "halt", "nil", "nil", 0, false)
  const LoadMoveHaltLayout: seq<Sentence> := [LoadStatement, MoveStatement, StopStatement]

  /** pre_process moves irmovq's value behind the registers and fills the
      unused register slot with nil; the other lines pass unchanged. */
  lemma LoadMoveHaltNormalized()
    ensures Normalize(LoadMoveHalt, false) == Ok(LoadMoveHaltTokens)
  {
    var l0, l1, l2 := ["irmovq", "10", "rax"], ["rrmovq", "rax", "rbx"], ["halt"];
    var ls := [l0, l1, l2];
    assert Normalize([l2], false) == Ok(l2) by {
      NormalizePassThrough(l2, false);
      NormalizeCons([l2], false, l2, []);
      assert l2 + [] == l2;
    }
    assert Normalize([l1, l2], false) == Ok(l1 + l2) by {
      NormalizePassThrough(l1, false);
      NormalizeCons([l1, l2], false, l1, l2);
    }
    assert Normalize(ls, false) == Ok(["irmovq", "nil", "rax", "10"] + (l1 + l2)) by {
      IrmovqCanonical("10", "rax");
      assert ls[1..] == [l1, l2];
      NormalizeCons(ls, false, ["irmovq", "nil", "rax", "10"], l1 + l2);
    }
    assert ["irmovq", "nil", "rax", "10"] + (l1 + l2) == LoadMoveHaltTokens;
  }

  lemma StopLaidOut()
    ensures LayoutFrom(LoadMoveHaltTokens, 7, 12) == Ok([StopStatement])
  {
    var tokens := LoadMoveHaltTokens;
    HaltEntry();
    NoOperandStep(tokens, 7, 12);
    LayoutCons(tokens, 7, 12, StopStatement, 8, []);
    Joined1(StopStatement);
  }

  lemma MoveLaidOut()
    ensures LayoutFrom(LoadMoveHaltTokens, 4, 10) == Ok([MoveStatement, StopStatement])
  {
    var tokens := LoadMoveHaltTokens;
    RrmovqEntry();
    RegRegStep(tokens, 4, 10);
    StopLaidOut();
    LayoutCons(tokens, 4, 10, MoveStatement, 7, [StopStatement]);
    Joined2(MoveStatement, StopStatement);
  }

  /** get_sentences on the first program. */
  lemma LoadMoveHaltLaidOut()
    ensures LayoutFrom(LoadMoveHaltTokens, 0, 0) == Ok(LoadMoveHaltLayout)
  {
    var tokens := LoadMoveHaltTokens;
    IrmovqEntry();
    TenParsed();
    ImmediateStep(tokens, 0, 0, 10);
    MoveLaidOut();
    LayoutCons(tokens, 0, 0, LoadStatement, 4, [MoveStatement, StopStatement]);
    Joined3(LoadStatement, MoveStatement, StopStatement);
  }

  /** The words of both programs, spelled out. */
  lemma LoadText()
    ensures "30" + ['f', '0'] + "0a00000000000000" == "30f00a00000000000000"
  {
  }

  lemma MoveText()
    ensures "20" + ['0', '3'] == "2003"
  {
  }

  lemma JumpText()
    ensures "70" + "0a00000000000000" == "700a00000000000000"
  {
  }

  lemma LoadWord()
    ensures EncodeSentence(LoadStatement, LoadMoveHaltLayout) == Ok("30f00a00000000000000")
  {
    IrmovqEntry();
    RegisterDigits();
    ImmediateWord(LoadStatement, LoadMoveHaltLayout, "30", 'f', '0');
    FieldOfTen();
    LoadText();
  }

  lemma MoveWord()
    ensures EncodeSentence(MoveStatement, LoadMoveHaltLayout) == Ok("2003")
  {
    RrmovqEntry();
    RegisterDigits();
    RegRegWord(MoveStatement, LoadMoveHaltLayout, "20", '0', '3');
    MoveText();
  }

  /** get_hexcodes: the load word carries 10 little-endian in its last
      eight bytes. */
  lemma LoadMoveHaltEncoded()
    ensures HexcodesFrom(LoadMoveHaltLayout, LoadMoveHaltLayout) == Ok(["30f00a00000000000000", "2003", "00"])
  {
    var all := LoadMoveHaltLayout;
    assert HexcodesFrom([StopStatement], all) == Ok(["00"]) by {
      HaltEntry();
      NoOperandWord(StopStatement, all, "00");
      HexcodesCons([StopStatement], all, "00", []);
      Joined1("00");
    }
    assert HexcodesFrom([MoveStatement, StopStatement], all) == Ok(["2003", "00"]) by {
      MoveWord();
      Joined2(MoveStatement, StopStatement);
      HexcodesCons([MoveStatement, StopStatement], all, "2003", ["00"]);
      Joined2("2003", "00");
    }
    LoadWord();
    Joined3(LoadStatement, MoveStatement, StopStatement);
    HexcodesCons(all, all, "30f00a00000000000000", ["2003", "00"]);
    Joined3("30f00a00000000000000", "2003", "00");
  }

  /** The whole pipeline on the first program. */
  lemma LoadMoveHaltAssembles()
    ensures Assemble(LoadMoveHalt, false) == Ok(["30f00a00000000000000", "2003", "00"])
  {
    LoadMoveHaltNormalized();
    LoadMoveHaltLaidOut();
    LoadMoveHaltEncoded();
  }

  // The second program.

  /** A jump to a label defined further down: `jmp done`, `nop`, `done:`,
      `halt`. */
  const JumpAhead: seq<seq<string>> := [["jmp", "done"], ["nop"], ["done:"], ["halt"]]

  const JumpAheadTokens: seq<string> := ["jmp", "done", "nop", "done:", "halt"]

  /** Its statements: the label takes no bytes and the address of the
      statement after it. */
  const JumpStatement := Sentence(0, 9, 9, "done", "jmp", "nil", "nil", 0, false)
  const NopStatement := Sentence(9, 10, 1, "", "nop", "nil", "nil", 0, false)
  const DoneLabel := Sentence(10, 10, 0, "done", "", "nil", "nil", 0, true)
  const LastStatement := Sentence(10, 11, 1, "", "halt", "nil", "nil", 0, false)
  const JumpAheadLayout: seq<Sentence> := [JumpStatement, NopStatement, DoneLabel, LastStatement]

  lemma JumpAheadNormalized()
    ensures Normalize(JumpAhead, false) == Ok(JumpAheadTokens)
  {
    var l0, l1, l2, l3 := ["jmp", "done"], ["nop"], ["done:"], ["halt"];
    var ls := [l0, l1, l2, l3];
    assert Normalize([l3], false) == Ok(l3) by {
      NormalizePassThrough(l3, false);
      NormalizeCons([l3], false, l3, []);
      assert l3 + [] == l3;
    }
    assert Normalize([l2, l3], false) == Ok(l2 + l3) by {
      NormalizePassThrough(l2, false);
      NormalizeCons([l2, l3], false, l2, l3);
    }
    assert Normalize([l1, l2, l3], false) == Ok(l1 + (l2 + l3)) by {
      NormalizePassThrough(l1, false);
      assert [l1, l2, l3][1..] == [l2, l3];
      NormalizeCons([l1, l2, l3], false, l1, l2 + l3);
    }
    assert Normalize(ls, false) == Ok(l0 + (l1 + (l2 + l3))) by {
      NormalizePassThrough(l0, false);
      assert ls[1..] == [l1, l2, l3];
      NormalizeCons(ls, false, l0, l1 + (l2 + l3));
    }
    assert l0 + (l1 + (l2 + l3)) == JumpAheadTokens;
  }

  lemma LastLaidOut()
    ensures LayoutFrom(JumpAheadTokens, 4, 10) == Ok([LastStatement])
  {
    var tokens := JumpAheadTokens;
    HaltEntry();
    NoOperandStep(tokens, 4, 10);
    LayoutCons(tokens, 4, 10, LastStatement, 5, []);
    Joined1(LastStatement);
  }

  lemma DoneLaidOut()
    ensures LayoutFrom(JumpAheadTokens, 3, 10) == Ok([DoneLabel, LastStatement])
  {
    var tokens := JumpAheadTokens;
    assert tokens[3][..4] == "done";
    LabelStep(tokens, 3, 10);
    LastLaidOut();
    LayoutCons(tokens, 3, 10, DoneLabel, 4, [LastStatement]);
    Joined2(DoneLabel, LastStatement);
  }

  lemma NopLaidOut()
    ensures LayoutFrom(JumpAheadTokens, 2, 9) == Ok([NopStatement, DoneLabel, LastStatement])
  {
    var tokens := JumpAheadTokens;
    NopEntry();
    NoOperandStep(tokens, 2, 9);
    DoneLaidOut();
    LayoutCons(tokens, 2, 9, NopStatement, 3, [DoneLabel, LastStatement]);
    Joined3(NopStatement, DoneLabel, LastStatement);
  }

  /** get_sentences on the second program. */
  lemma JumpAheadLaidOut()
    ensures LayoutFrom(JumpAheadTokens, 0, 0) == Ok(JumpAheadLayout)
  {
    var tokens := JumpAheadTokens;
    JmpEntry();
    TargetStep(tokens, 0, 0);
    NopLaidOut();
    LayoutCons(tokens, 0, 0, JumpStatement, 2, [NopStatement, DoneLabel, LastStatement]);
    Joined4(JumpStatement, NopStatement, DoneLabel, LastStatement);
  }

  /** The forward reference resolves to 10, the address of `halt`. */
  lemma JumpAheadTarget()
    ensures ResolveLabel(JumpAheadLayout, "done") == 10
  {
    var ss := JumpAheadLayout;
    assert ss[..3] == [JumpStatement, NopStatement, DoneLabel];
    assert !Defines(LastStatement, "done");
    assert Defines(DoneLabel, "done");
    assert LastLabel(ss[..3], "done") == Some(10);
  }

  lemma JumpWord()
    ensures EncodeSentence(JumpStatement, JumpAheadLayout) == Ok("700a00000000000000")
  {
    JmpEntry();
    TargetWord(JumpStatement, JumpAheadLayout, "70");
    JumpAheadTarget();
    FieldOfTen();
    JumpText();
  }

  lemma JumpAheadEncoded()
    ensures HexcodesFrom(JumpAheadLayout, JumpAheadLayout) == Ok(["700a00000000000000", "10", "00"])
  {
    var all := JumpAheadLayout;
    assert HexcodesFrom([LastStatement], all) == Ok(["00"]) by {
      HaltEntry();
      NoOperandWord(LastStatement, all, "00");
      HexcodesCons([LastStatement], all, "00", []);
      Joined1("00");
    }
    assert HexcodesFrom([DoneLabel, LastStatement], all) == Ok(["00"]) by {
      Joined2(DoneLabel, LastStatement);
    }
    assert HexcodesFrom([NopStatement, DoneLabel, LastStatement], all) == Ok(["10", "00"]) by {
      NopEntry();
      NoOperandWord(NopStatement, all, "10");
      Joined3(NopStatement, DoneLabel, LastStatement);
      HexcodesCons([NopStatement, DoneLabel, LastStatement], all, "10", ["00"]);
      Joined2("10", "00");
    }
    JumpWord();
    Joined4(JumpStatement, NopStatement, DoneLabel, LastStatement);
    HexcodesCons(all, all, "700a00000000000000", ["10", "00"]);
    Joined3("700a00000000000000", "10", "00");
  }

  /** The whole pipeline on the second program: the label writes nothing. */
  lemma JumpAheadAssembles()
    ensures Assemble(JumpAhead, false) == Ok(["700a00000000000000", "10", "00"])
  {
    JumpAheadNormalized();
    JumpAheadLaidOut();
    JumpAheadEncoded();
  }

  // The third program.

  /** A stack pointer loaded with the address of a label defined further
      down: `irmovq data, %rsp`, `halt`, `data:`. */
  const LoadLabel: seq<seq<string>> := [["irmovq", "data", "rsp"], ["halt"], ["data:"]]

  const LoadLabelTokens: seq<string> := ["irmovq", "nil", "rsp", "data", "halt", "data:"]

  /** Its statements: the irmovq refers to `data`, which sits at 11, the
      end of the image. */
  const AddressStatement := Sentence(0, 10, 10, "data", "irmovq", "nil", "rsp", 0, false)
  const DataStop := Sentence(10, 11, 1, "", "halt", "nil", "nil", 0, false)
  const DataLabel := Sentence(11, 11, 0, "data", "", "nil", "nil", 0, true)
  const LoadLabelLayout: seq<Sentence> := [AddressStatement, DataStop, DataLabel]

  lemma LoadLabelNormalized()
    ensures Normalize(LoadLabel, false) == Ok(LoadLabelTokens)
  {
    var l0, l1, l2 := ["irmovq", "data", "rsp"], ["halt"], ["data:"];
    var ls := [l0, l1, l2];
    assert Normalize([l2], false) == Ok(l2) by {
      NormalizePassThrough(l2, false);
      NormalizeCons([l2], false, l2, []);
      assert l2 + [] == l2;
    }
    assert Normalize([l1, l2], false) == Ok(l1 + l2) by {
      NormalizePassThrough(l1, false);
      NormalizeCons([l1, l2], false, l1, l2);
    }
    assert Normalize(ls, false) == Ok(["irmovq", "nil", "rsp", "data"] + (l1 + l2)) by {
      IrmovqCanonical("data", "rsp");
      assert ls[1..] == [l1, l2];
      NormalizeCons(ls, false, ["irmovq", "nil", "rsp", "data"], l1 + l2);
    }
    assert ["irmovq", "nil", "rsp", "data"] + (l1 + l2) == LoadLabelTokens;
  }

  /** `data` fails the numeral test: `t` is no digit in either base. */
  lemma DataIsNoNumeral()
    ensures !IsNumeral("data")
  {
    assert !IsHexDigit("data"[2]);
    assert !HasHexPrefix("data");
  }

  lemma DataLabelLaidOut()
    ensures LayoutFrom(LoadLabelTokens, 5, 11) == Ok([DataLabel])
  {
    var tokens := LoadLabelTokens;
    assert tokens[5][..4] == "data";
    LabelStep(tokens, 5, 11);
    LayoutCons(tokens, 5, 11, DataLabel, 6, []);
    Joined1(DataLabel);
  }

  lemma DataStopLaidOut()
    ensures LayoutFrom(LoadLabelTokens, 4, 10) == Ok([DataStop, DataLabel])
  {
    var tokens := LoadLabelTokens;
    HaltEntry();
    NoOperandStep(tokens, 4, 10);
    DataLabelLaidOut();
    LayoutCons(tokens, 4, 10, DataStop, 5, [DataLabel]);
    Joined2(DataStop, DataLabel);
  }

  /** get_sentences on the third program: the non-numeral operand makes
      the irmovq a label reference. */
  lemma LoadLabelLaidOut()
    ensures LayoutFrom(LoadLabelTokens, 0, 0) == Ok(LoadLabelLayout)
  {
    var tokens := LoadLabelTokens;
    DataIsNoNumeral();
    LabelOperandStep(tokens, 0, 0);
    DataStopLaidOut();
    LayoutCons(tokens, 0, 0, AddressStatement, 4, [DataStop, DataLabel]);
    Joined3(AddressStatement, DataStop, DataLabel);
  }

  /** The reference resolves to 11, the end of the image. */
  lemma LoadLabelTarget()
    ensures ResolveLabel(LoadLabelLayout, "data") == 11
  {
    assert Defines(DataLabel, "data");
  }

  lemma PairOfEleven()
    ensures FixedHex(11, 2) == "0b"
  {
    assert HexDigit(11) == 'b';
    assert HexDigit(0) == '0';
    assert FixedHex(0, 1) == "0";
  }

  lemma BytesOfElevenSplit()
    ensures LeBytes(11, 8) == FixedHex(11, 2) + LeBytes(0, 7)
  {
    assert 11 % 256 == 11 && 11 / 256 == 0;
  }

  lemma BytesOfElevenText()
    ensures "0b" + "00000000000000" == "0b00000000000000"
  {
  }

  /** bige2lite(11): the byte 0b first, then seven zero bytes. */
  lemma FieldOfEleven()
    ensures LittleEndianHex(11) == "0b00000000000000"
  {
    assert Pow16(1) == 16;
    PowMonotone(1, 16);
    LittleEndianHexIsLeBytes(11);
    BytesOfElevenSplit();
    PairOfEleven();
    SevenZeroBytes();
    BytesOfElevenText();
  }

  lemma AddressText()
    ensures "30" + ['f', '4'] + "0b00000000000000" == "30f40b00000000000000"
  {
  }

  lemma AddressWord()
    ensures EncodeSentence(AddressStatement, LoadLabelLayout) == Ok("30f40b00000000000000")
  {
    assert RegDigit("nil") == Ok('f') && RegDigit("rsp") == Ok('4');
    LabelImmediateWord(AddressStatement, LoadLabelLayout, 'f', '4');
    LoadLabelTarget();
    FieldOfEleven();
    AddressText();
  }

  lemma LoadLabelEncoded()
    ensures HexcodesFrom(LoadLabelLayout, LoadLabelLayout) == Ok(["30f40b00000000000000", "00"])
  {
    var all := LoadLabelLayout;
    assert HexcodesFrom([DataLabel], all) == Ok([]);
    assert HexcodesFrom([DataStop, DataLabel], all) == Ok(["00"]) by {
      HaltEntry();
      NoOperandWord(DataStop, all, "00");
      Joined2(DataStop, DataLabel);
      HexcodesCons([DataStop, DataLabel], all, "00", []);
      Joined1("00");
    }
    AddressWord();
    Joined3(AddressStatement, DataStop, DataLabel);
    HexcodesCons(all, all, "30f40b00000000000000", ["00"]);
    Joined2("30f40b00000000000000", "00");
  }

  /** The whole pipeline on the third program: an irmovq with a label
      operand carries the label's address, 11, as its little-endian field. */
  lemma LoadLabelAssembles()
    ensures Assemble(LoadLabel, false) == Ok(["30f40b00000000000000", "00"])
  {
    LoadLabelNormalized();
    LoadLabelLaidOut();
    LoadLabelEncoded();
  }

  // A rejected operand.

  lemma BareHexNormalized()
    ensures Normalize([["irmovq", "beef", "rax"]], false) == Ok(["irmovq", "nil", "rax", "beef"])
  {
    var line := ["irmovq", "beef", "rax"];
    var tokens := ["irmovq", "nil", "rax", "beef"];
    IrmovqCanonical("beef", "rax");
    NormalizeCons([line], false, tokens, []);
    assert tokens + [] == tokens;
  }

  lemma BareHexStep()
    ensures Step(["irmovq", "nil", "rax", "beef"], 0, 0) == Err(BadNumeral("beef"))
  {
    IrmovqEntry();
    assert IsNumeral("beef") by { assert IsHexDigits("beef"); }
    assert !IsDecimal("beef") by { assert !IsDecDigit("beef"[0]); }
    assert "beef"[..2] != "0x";
  }

  /** A bare hexadecimal operand such as `beef` passes the numeral test,
      so it is parsed as an immediate, and the decimal parse rejects it. */
  lemma BareHexImmediateRejected()
    ensures Assemble([["irmovq", "beef", "rax"]], false) == Err(BadNumeral("beef"))
  {
    BareHexNormalized();
    BareHexStep();
  }
}
