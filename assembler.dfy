/** The assembler pipeline main runs between reading the source file and
    writing the .bin file: normalise the token lines, lay the statements
    out, encode them. */
module Assembler {
  import opened Outcome
  import opened Tables
  import opened HexField
  import opened Normalizer
  import opened Layout
  import opened Encoder

  /** pre_process, then get_sentences, then get_hexcodes; `intended` selects
      the pushq/popq padding the code evidently means instead of the code
      as written. */
  function Assemble(lines: seq<seq<string>>, intended: bool): Result<seq<string>>
  {
    var tokens :- Normalize(lines, intended);
    var sentences :- LayoutFrom(tokens, 0, 0);
    HexcodesFrom(sentences, sentences)
  }

  /** The three stage calls of main; `intended` false is the code as
      written, true the corrected pushq/popq padding. */
  method AssembleLines(lines: seq<seq<string>>, intended: bool) returns (r: Result<seq<string>>)
    ensures r == Assemble(lines, intended)
  {
    var processed := PreProcess(lines, intended);
    if processed.Err? {
      return Err(processed.error);
    }
    var sentences := GetSentences(processed.value);
    if sentences.Err? {
      return Err(sentences.error);
    }
    r := GetHexcodes(sentences.value);
  }

  /** The written image has two hex characters for each byte the layout
      assigned, and the layout's last statement ends at that byte count. */
  lemma ImageSize(lines: seq<seq<string>>, intended: bool)
    requires Assemble(lines, intended).Ok?
    ensures var ss := LayoutFrom(Normalize(lines, intended).value, 0, 0).value;
      TotalChars(Assemble(lines, intended).value) == 2 * TotalLength(ss) &&
      (ss != [] ==> ss[|ss| - 1].endAddress == TotalLength(ss))
  {
    var tokens := Normalize(lines, intended).value;
    LayoutInvariants(tokens, 0, 0);
    var ss := LayoutFrom(tokens, 0, 0).value;
    HexcodesSize(ss, ss);
  }

  /** A reference to a defined label resolves to the byte offset of its
      last definition, which is the address of the next instruction after
      it (or the end of the image). */
  lemma ReferenceResolvesToOffset(ss: seq<Sentence>, name: string)
    requires Contiguous(ss, 0) && forall m :: 0 <= m < |ss| ==> WellShaped(ss[m])
    requires LastLabel(ss, name).Some?
    ensures exists k :: (0 <= k < |ss| && Defines(ss[k], name) &&
                         ResolveLabel(ss, name) == TotalLength(ss[..k]) &&
                         forall m :: k < m < |ss| ==> !Defines(ss[m], name))
  {
    LastLabelSpec(ss, name);
    var k :| 0 <= k < |ss| && Defines(ss[k], name) && ss[k].startAddress == LastLabel(ss, name).value &&
             (forall m :: k < m < |ss| ==> !Defines(ss[m], name));
    StartIsOffset(ss, 0, k);
  }

  /** The corrected padding turns a pushq or popq line into the three
      tokens `op rA nil`. */
  lemma PushPopPadded(op: string, r: string)
    requires op in {"pushq", "popq"}
    ensures Normalize([[op, r]], true) == Ok([op, r, "nil"])
  {
    var line := [op, r];
    NormalizePushPop(line, true);
    assert line + ["nil"] == [op, r, "nil"];
    Joined1(line);
    assert [line][1..] == [];
    NormalizeCons([line], true, [op, r, "nil"], []);
    assert [op, r, "nil"] + [] == [op, r, "nil"];
  }

  /** `op rA nil` is one two-byte statement at address 0. */
  lemma PushPopLaidOut(op: string, r: string)
    requires op in {"pushq", "popq"} && r in Regs2Num
    ensures LayoutFrom([op, r, "nil"], 0, 0) == Ok([Sentence(0, 2, 2, "", op, r, "nil", 0, false)])
  {
    var tokens := [op, r, "nil"];
    var s := Sentence(0, 2, 2, "", op, r, "nil", 0, false);
    assert Instructions[op].shape == RegReg;
    assert r != "0xf";
    RegRegStep(tokens, 0, 0);
    LayoutCons(tokens, 0, 0, s, 3, []);
    Joined1(s);
  }

  /** The statement's word: the opcode, rA's digit, then f for nil. */
  lemma PushPopWord(op: string, r: string, all: seq<Sentence>)
    requires op in {"pushq", "popq"} && r in Regs2Num
    ensures EncodeSentence(Sentence(0, 2, 2, "", op, r, "nil", 0, false), all) ==
            Ok(Instructions[op].opcode + [HexDigit(Regs2Num[r]), 'f'])
  {
    assert Instructions[op].shape == RegReg;
    assert RegDigit("nil") == Ok('f');
    RegRegWord(Sentence(0, 2, 2, "", op, r, "nil", 0, false), all, Instructions[op].opcode, HexDigit(Regs2Num[r]), 'f');
  }

  /** With the padding the code evidently means, `pushq rA` (and `popq rA`)
      assembles to its two-byte word: the opcode, rA's code, then the
      register-free code f. */
  lemma PushPopIntended(op: string, r: string)
    requires op in {"pushq", "popq"} && r in Regs2Num
    ensures Assemble([[op, r]], true) == Ok([Instructions[op].opcode + [HexDigit(Regs2Num[r]), 'f']])
  {
    var s := Sentence(0, 2, 2, "", op, r, "nil", 0, false);
    var w := Instructions[op].opcode + [HexDigit(Regs2Num[r]), 'f'];
    PushPopPadded(op, r);
    PushPopLaidOut(op, r);
    PushPopWord(op, r, [s]);
    Joined1(s);
    assert [s][1..] == [];
    HexcodesCons([s], [s], w, []);
    Joined1(w);
  }

  /** As written, pre_process drops a pushq or popq line's tokens for
      `None`, so no program with a push or a pop assembles. */
  lemma PushPopAsWritten(lines: seq<seq<string>>, k: nat)
    requires k < |lines| && lines[k] != [] && lines[k][0] in {"pushq", "popq"}
    ensures Assemble(lines, false).Err?
  {
    PushPopRejected(lines, k);
  }
}
