/** get_hexcodes: render each non-label statement as its hex machine word,
    resolving label references against the complete statement list. */
module Encoder {
  import opened Outcome
  import opened Tables
  import opened Numerals
  import opened HexField
  import opened Layout

  /** The sentence is a definition of label `name`. */
  predicate Defines(s: Sentence, name: string)
  {
    s.isLabel && s.labelName == name
  }

  /** The address of the last definition of `name` in ss, if there is one. */
  function LastLabel(ss: seq<Sentence>, name: string): Option<nat>
  {
    if ss == [] then None
    else if Defines(ss[|ss| - 1], name) then Some(ss[|ss| - 1].startAddress)
    else LastLabel(ss[..|ss| - 1], name)
  }

  /** No result exactly when nothing defines the label; otherwise the
      result is the address of a definition that no later one overrides. */
  lemma {:induction false} LastLabelSpec(ss: seq<Sentence>, name: string)
    ensures LastLabel(ss, name).None? <==> forall j :: 0 <= j < |ss| ==> !Defines(ss[j], name)
    ensures LastLabel(ss, name).Some? ==>
      exists j :: 0 <= j < |ss| && Defines(ss[j], name) && ss[j].startAddress == LastLabel(ss, name).value &&
                  forall m :: j < m < |ss| ==> !Defines(ss[m], name)
  {
    if ss != [] && !Defines(ss[|ss| - 1], name) {
      var p := ss[..|ss| - 1];
      LastLabelSpec(p, name);
      if LastLabel(p, name).Some? {
        var j :| 0 <= j < |p| && Defines(p[j], name) && p[j].startAddress == LastLabel(p, name).value &&
                 forall m :: j < m < |p| ==> !Defines(p[m], name);
        assert ss[j] == p[j];
        forall m | j < m < |ss|
          ensures !Defines(ss[m], name)
        {
          if m < |p| {
            assert ss[m] == p[m];
          }
        }
      } else {
        forall j | 0 <= j < |ss|
          ensures !Defines(ss[j], name)
        {
          if j < |p| {
            assert ss[j] == p[j];
          }
        }
      }
    }
  }

  /** The value a reference to `name` encodes: the last definition's
      address, or the placeholder 0 when the label is not defined. */
  function ResolveLabel(ss: seq<Sentence>, name: string): nat
  {
    match LastLabel(ss, name)
    case Some(a) => a
    case None => 0
  }

  /** The label search get_hexcodes runs (inline, in two places) for a jump,
      a call or an irmovq with a label operand: every label of the list is
      visited and the last match wins. `found` false is the case the source
      reports with a message and then encodes as 0. */
  method FindLabel(ss: seq<Sentence>, name: string) returns (target: nat, found: bool)
    ensures found <==> exists j :: 0 <= j < |ss| && Defines(ss[j], name)
    ensures found ==> exists j :: 0 <= j < |ss| && Defines(ss[j], name) && target == ss[j].startAddress &&
                                  forall m :: j < m < |ss| ==> !Defines(ss[m], name)
    ensures !found ==> target == 0
    ensures target == ResolveLabel(ss, name)
  {
    target, found := 0, false;
    for k := 0 to |ss|
      invariant found == LastLabel(ss[..k], name).Some?
      invariant target == ResolveLabel(ss[..k], name)
    {
      assert ss[..k + 1][..k] == ss[..k];
      if ss[k].isLabel && ss[k].labelName == name {
        target := ss[k].startAddress;
        found := true;
      }
    }
    assert ss[..|ss|] == ss;
    LastLabelSpec(ss, name);
  }

  /** `"%0.1x" % regs2num[r]`: the register's code as one hex digit. */
  function RegDigit(r: string): (d: Result<char>)
    ensures d.Ok? <==> r in Regs2Num
    ensures d.Ok? ==> IsLowerHexChar(d.value) && DigitValue(d.value) == Regs2Num[r]
  {
    if r in Regs2Num then Ok(HexDigit(Regs2Num[r])) else Err(UnknownRegister(r))
  }

  /** The number the 8-byte field of an instruction of shape `sh` carries:
      a resolved label address for jumps, calls and irmovq with a label
      operand, the literal immediate otherwise. */
  function FieldValue(s: Sentence, all: seq<Sentence>, sh: Shape): nat
  {
    if sh == Target || (s.instrName == "irmovq" && s.labelName != []) then ResolveLabel(all, s.labelName)
    else s.imm
  }

  /** One turn of get_hexcodes's loop for a non-label sentence. */
  function EncodeSentence(s: Sentence, all: seq<Sentence>): Result<string>
  {
    if s.instrName !in Instructions then Err(UnknownMnemonic(s.instrName))
    else
      var info := Instructions[s.instrName];
      match info.shape
      case NoOperand => Ok(info.opcode)
      case RegReg =>
        var d1 :- RegDigit(s.r1);
        var d2 :- RegDigit(s.r2);
        Ok(info.opcode + [d1, d2])
      case Target => Ok(info.opcode + LittleEndianHex(FieldValue(s, all, Target)))
      case RegRegImm =>
        var d1 :- RegDigit(s.r1);
        var d2 :- RegDigit(s.r2);
        Ok(info.opcode + [d1, d2] + LittleEndianHex(FieldValue(s, all, RegRegImm)))
  }

  /** get_hexcodes over ss, references resolved in `all`: labels produce no
      word, every other sentence one word, in order. */
  function HexcodesFrom(ss: seq<Sentence>, all: seq<Sentence>): Result<seq<string>>
  {
    if ss == [] then Ok([])
    else if ss[0].isLabel then HexcodesFrom(ss[1..], all)
    else
      var h :- EncodeSentence(ss[0], all);
      Prepend([h], HexcodesFrom(ss[1..], all))
  }

  /** One instruction's word in front of the words of the rest. */
  lemma HexcodesCons(ss: seq<Sentence>, all: seq<Sentence>, h: string, rest: seq<string>)
    requires ss != [] && !ss[0].isLabel && EncodeSentence(ss[0], all) == Ok(h)
    requires HexcodesFrom(ss[1..], all) == Ok(rest)
    ensures HexcodesFrom(ss, all) == Ok([h] + rest)
  {
  }

  /** The instruction sentences of ss, in order. */
  function InstructionSentences(ss: seq<Sentence>): seq<Sentence>
  {
    if ss == [] then [] else (if ss[0].isLabel then [] else [ss[0]]) + InstructionSentences(ss[1..])
  }

  /** The word of one instruction: it is lower-case hex, two characters
      per byte of the statement; it begins with the table opcode; the
      register shapes continue with one digit per register code; the
      target shapes end with the 8-byte field of the value the statement
      carries, which below 2^64 decodes back to that value. A jump, a call
      or an irmovq with a label operand carries its label's resolved
      address, any other statement its immediate. */
  lemma EncodedWord(s: Sentence, all: seq<Sentence>)
    requires WellShaped(s) && !s.isLabel && EncodeSentence(s, all).Ok?
    ensures var h := EncodeSentence(s, all).value;
      var sh := Instructions[s.instrName].shape;
      var v := if sh == Target || (s.instrName == "irmovq" && s.labelName != []) then ResolveLabel(all, s.labelName) else s.imm;
      |h| == 2 * s.length && IsLowerHex(h) &&
      h[..2] == Instructions[s.instrName].opcode &&
      (sh in {RegReg, RegRegImm} ==>
        s.r1 in Regs2Num && s.r2 in Regs2Num && DigitValue(h[2]) == Regs2Num[s.r1] && DigitValue(h[3]) == Regs2Num[s.r2]) &&
      (sh in {Target, RegRegImm} ==>
        h[|h| - 16..] == LittleEndianHex(v) && (v < Pow16(16) ==> DecodeLe(h[|h| - 16..]) == v))
  {
    var h := EncodeSentence(s, all).value;
    var info := Instructions[s.instrName];
    var v := FieldValue(s, all, info.shape);
    match info.shape {
      case NoOperand =>
        assert h == info.opcode + [] + [];
        WordPrefix(info.opcode, [], []);
      case RegReg =>
        var digits := [RegDigit(s.r1).value, RegDigit(s.r2).value];
        assert h == info.opcode + digits + [];
        WordPrefix(info.opcode, digits, []);
      case Target =>
        FieldWord(h, info.opcode, [], v);
      case RegRegImm =>
        var digits := [RegDigit(s.r1).value, RegDigit(s.r2).value];
        FieldWord(h, info.opcode, digits, v);
    }
  }

  /** A word that ends with a field: the field is its last 16 characters
      and, below 2^64, decodes back to the value it holds. */
  lemma FieldWord(h: string, op: Opcode, digits: string, v: nat)
    requires IsLowerHex(digits) && h == op + digits + LittleEndianHex(v)
    ensures |h| == 18 + |digits| && h[..2] == op && IsLowerHex(h)
    ensures |digits| == 2 ==> h[2] == digits[0] && h[3] == digits[1]
    ensures h[|h| - 16..] == LittleEndianHex(v)
    ensures v < Pow16(16) ==> DecodeLe(h[|h| - 16..]) == v
  {
    WordPrefix(op, digits, LittleEndianHex(v));
    if v < Pow16(16) {
      LittleEndianHexRoundTrip(v);
    }
  }

  /** Where the parts of a word sit: the opcode first, the register digits
      after it, the field last; lower-case hex parts make a lower-case hex
      word. */
  lemma WordPrefix(op: Opcode, digits: string, field: string)
    requires IsLowerHex(digits) && IsLowerHex(field)
    ensures var h := op + digits + field;
      |h| == 2 + |digits| + |field| && h[..2] == op && h[|h| - |field|..] == field && IsLowerHex(h) &&
      (|digits| == 2 ==> h[2] == digits[0] && h[3] == digits[1])
  {
    var h := op + digits + field;
    assert h[..2] == op;
    assert h[|h| - |field|..] == field;
    forall k | 0 <= k < |h|
      ensures IsLowerHexChar(h[k])
    {
      if k >= 2 + |digits| {
        assert h[k] == field[k - 2 - |digits|];
      } else if k >= 2 {
        assert h[k] == digits[k - 2];
      }
    }
  }

  /** An instruction fails to encode only on a register name the register
      table does not know. */
  lemma EncodeFailsOnlyOnRegisters(s: Sentence, all: seq<Sentence>)
    requires WellShaped(s) && !s.isLabel
    ensures EncodeSentence(s, all).Err? <==>
      Instructions[s.instrName].shape in {RegReg, RegRegImm} && (s.r1 !in Regs2Num || s.r2 !in Regs2Num)
  {
  }

  /** One word per instruction sentence, in order, and none for labels. */
  lemma {:induction false} HexcodesWords(ss: seq<Sentence>, all: seq<Sentence>)
    requires HexcodesFrom(ss, all).Ok?
    ensures var hs := HexcodesFrom(ss, all).value;
      |hs| == |InstructionSentences(ss)| &&
      forall k :: 0 <= k < |hs| ==> EncodeSentence(InstructionSentences(ss)[k], all) == Ok(hs[k])
  {
    if ss != [] {
      HexcodesWords(ss[1..], all);
      var rest := HexcodesFrom(ss[1..], all).value;
      if ss[0].isLabel {
        assert InstructionSentences(ss) == InstructionSentences(ss[1..]);
      } else {
        var h := EncodeSentence(ss[0], all).value;
        assert HexcodesFrom(ss, all).value == [h] + rest;
        assert InstructionSentences(ss) == [ss[0]] + InstructionSentences(ss[1..]);
      }
    }
  }

  function TotalChars(hs: seq<string>): nat
  {
    if hs == [] then 0 else |hs[0]| + TotalChars(hs[1..])
  }

  /** The output is exactly as long as the layout: two hex characters for
      every byte of every statement. */
  lemma {:induction false} HexcodesSize(ss: seq<Sentence>, all: seq<Sentence>)
    requires forall k :: 0 <= k < |ss| ==> WellShaped(ss[k])
    requires HexcodesFrom(ss, all).Ok?
    ensures TotalChars(HexcodesFrom(ss, all).value) == 2 * TotalLength(ss)
  {
    if ss != [] {
      assert WellShaped(ss[0]);
      HexcodesSize(ss[1..], all);
      if !ss[0].isLabel {
        EncodedWord(ss[0], all);
      }
    }
  }

  /** The body of get_hexcodes's loop for one non-label sentence: the
      opcode, then the register digits, then the field, accumulated into
      one word. */
  method EncodeStatement(s: Sentence, sentences: seq<Sentence>) returns (r: Result<string>)
    ensures r == EncodeSentence(s, sentences)
  {
    if s.instrName !in Instructions {
      return Err(UnknownMnemonic(s.instrName));
    }
    var hcode: string := Instructions[s.instrName].opcode;
    match Instructions[s.instrName].shape {
      case NoOperand =>
      case RegReg =>
        if s.r1 !in Regs2Num {
          return Err(UnknownRegister(s.r1));
        }
        if s.r2 !in Regs2Num {
          return Err(UnknownRegister(s.r2));
        }
        hcode := hcode + [HexDigit(Regs2Num[s.r1])];
        hcode := hcode + [HexDigit(Regs2Num[s.r2])];
        assert hcode == Instructions[s.instrName].opcode + [HexDigit(Regs2Num[s.r1]), HexDigit(Regs2Num[s.r2])];
      case Target =>
        var target, found := FindLabel(sentences, s.labelName);
        var field := Bige2lite(target);
        hcode := hcode + field;
      case RegRegImm =>
        if s.r1 !in Regs2Num {
          return Err(UnknownRegister(s.r1));
        }
        if s.r2 !in Regs2Num {
          return Err(UnknownRegister(s.r2));
        }
        hcode := hcode + [HexDigit(Regs2Num[s.r1])];
        hcode := hcode + [HexDigit(Regs2Num[s.r2])];
        assert hcode == Instructions[s.instrName].opcode + [HexDigit(Regs2Num[s.r1]), HexDigit(Regs2Num[s.r2])];
        if s.instrName == "irmovq" && s.labelName != [] {
          var target, found := FindLabel(sentences, s.labelName);
          var field := Bige2lite(target);
          hcode := hcode + field;
        } else {
          var field := Bige2lite(s.imm);
          hcode := hcode + field;
        }
    }
    r := Ok(hcode);
  }

  /** get_hexcodes as the loop the source runs: labels are skipped and
      every other sentence appends its word, labels being looked up over
      the whole list. */
  method GetHexcodes(sentences: seq<Sentence>) returns (r: Result<seq<string>>)
    ensures r == HexcodesFrom(sentences, sentences)
  {
    var hexcodes: seq<string> := [];
    PrependNothing(HexcodesFrom(sentences, sentences));
    assert sentences[0..] == sentences;
    for k := 0 to |sentences|
      invariant HexcodesFrom(sentences, sentences) == Prepend(hexcodes, HexcodesFrom(sentences[k..], sentences))
    {
      var s := sentences[k];
      assert sentences[k..][0] == s && sentences[k..][1..] == sentences[k + 1..];
      if s.isLabel {
        continue;
      }
      var hcode := EncodeStatement(s, sentences);
      if hcode.Err? {
        return Err(hcode.error);
      }
      PrependAssociative(hexcodes, [hcode.value], HexcodesFrom(sentences[k + 1..], sentences));
      hexcodes := hexcodes + [hcode.value];
    }
    assert sentences[|sentences|..] == [];
    assert hexcodes + [] == hexcodes;
    r := Ok(hexcodes);
  }

  // One turn of get_hexcodes for each shape.

  lemma NoOperandWord(s: Sentence, all: seq<Sentence>, op: string)
    requires s.instrName in Instructions && Instructions[s.instrName].shape == NoOperand
    requires Instructions[s.instrName].opcode == op
    ensures EncodeSentence(s, all) == Ok(op)
  {
  }

  lemma RegRegWord(s: Sentence, all: seq<Sentence>, op: string, d1: char, d2: char)
    requires s.instrName in Instructions && Instructions[s.instrName].shape == RegReg
    requires Instructions[s.instrName].opcode == op
    requires RegDigit(s.r1) == Ok(d1) && RegDigit(s.r2) == Ok(d2)
    ensures EncodeSentence(s, all) == Ok(op + [d1, d2])
  {
  }

  lemma TargetWord(s: Sentence, all: seq<Sentence>, op: string)
    requires s.instrName in Instructions && Instructions[s.instrName].shape == Target
    requires Instructions[s.instrName].opcode == op
    ensures EncodeSentence(s, all) == Ok(op + LittleEndianHex(ResolveLabel(all, s.labelName)))
  {
  }

  lemma ImmediateWord(s: Sentence, all: seq<Sentence>, op: string, d1: char, d2: char)
    requires s.instrName in Instructions && Instructions[s.instrName].shape == RegRegImm
    requires Instructions[s.instrName].opcode == op
    requires RegDigit(s.r1) == Ok(d1) && RegDigit(s.r2) == Ok(d2) && s.labelName == []
    ensures EncodeSentence(s, all) == Ok(op + [d1, d2] + LittleEndianHex(s.imm))
  {
  }

  /** An irmovq with a label operand encodes as its opcode, the register
      digits, then the field of the label's last definition's address, or
      of 0 when the label is undefined. */
  lemma LabelImmediateWord(s: Sentence, all: seq<Sentence>, d1: char, d2: char)
    requires s.instrName == "irmovq" && s.labelName != []
    requires RegDigit(s.r1) == Ok(d1) && RegDigit(s.r2) == Ok(d2)
    ensures EncodeSentence(s, all) == Ok("30" + [d1, d2] + LittleEndianHex(ResolveLabel(all, s.labelName)))
  {
    assert "irmovq" in Instructions && Instructions["irmovq"] == InstrInfo(RegRegImm, "30");
  }
}
