/** get_sentences and the sentence record: one left-to-right scan over the
    normalised token stream that gives every statement its start address
    and byte length. */
module Layout {
  import opened Outcome
  import opened Tables
  import opened Numerals
  import opened HexField

  /** A statement with its place in the image. Sentences are never changed
      after construction, so the record is a value. */
  datatype Sentence = Sentence(
    startAddress: nat,
    endAddress: nat,
    length: nat,
    labelName: string,  // a label's own name, or the label a jump, call or irmovq refers to
    instrName: string,  // the mnemonic; empty for a label
    r1: string,
    r2: string,
    imm: nat,
    isLabel: bool)

  /** sentence.__init__: the end address is derived from the start and the
      length; a sentence is a label exactly when it has a name and no
      mnemonic, and then the stored name drops the trailing terminator; a
      register written `0xf` is read as nil. */
  function NewSentence(startAddress: nat, length: nat, labelName: string, instrName: string,
                       r1: string, r2: string, imm: nat): (s: Sentence)
    ensures s.startAddress == startAddress && s.length == length
    ensures s.endAddress == startAddress + length
    ensures s.isLabel <==> labelName != [] && instrName == []
    ensures s.isLabel ==> s.labelName + [labelName[|labelName| - 1]] == labelName
    ensures !s.isLabel ==> s.labelName == labelName
    ensures s.instrName == instrName && s.imm == imm
    ensures s.r1 == (if r1 == "0xf" then "nil" else r1) && s.r2 == (if r2 == "0xf" then "nil" else r2)
  {
    var isLabel := labelName != [] && instrName == [];
    Sentence(startAddress, startAddress + length, length,
             if isLabel then labelName[..|labelName| - 1] else labelName,
             instrName,
             if r1 == "0xf" then "nil" else r1,
             if r2 == "0xf" then "nil" else r2,
             imm, isLabel)
  }

  /** The immediate of an rri statement: `int(v, 16)` after a `0x` prefix,
      `int(v)` otherwise. */
  function ParseImmediate(v: string): (r: Result<nat>)
    ensures |v| >= 2 && v[..2] == "0x" ==> (r.Ok? <==> IsHexDigits(v[2..]))
    ensures !(|v| >= 2 && v[..2] == "0x") ==> (r.Ok? <==> IsDecimal(v))
    ensures r.Ok? && |v| >= 2 && v[..2] == "0x" ==> r.value == HexValue(v[2..])
    ensures r.Ok? && !(|v| >= 2 && v[..2] == "0x") ==> r.value == DecValue(v)
  {
    if |v| >= 2 && v[..2] == "0x" then
      assert v[1] == v[..2][1] && !IsHexDigit(v[1]);
      ParseHex(v)
    else ParseDec(v)
  }

  /** An immediate written as Python's `str(n)` reads back as n. */
  lemma DecimalImmediate(n: nat)
    ensures ParseImmediate(DecimalText(n)) == Ok(n)
  {
    var v := DecimalText(n);
    DecimalTextValue(n);
    if |v| >= 2 {
      assert IsDecDigit(v[1]);
    }
  }

  /** An immediate written as `0x` and n lower-case hex digits reads back
      as its value. */
  lemma HexImmediate(a: nat, n: nat)
    requires n >= 1 && a < Pow16(n)
    ensures ParseImmediate("0x" + FixedHex(a, n)) == Ok(a)
  {
    var t := FixedHex(a, n);
    var v := "0x" + t;
    assert v[..2] == "0x" && v[2..] == t;
    LowerHexIsHex(t);
    assert !IsHexDigit(v[1]);
    FixedHexValue(a, n);
  }

  /** True when the token ends with the label terminator `:`. */
  predicate IsLabelToken(tok: string)
  {
    tok != [] && tok[|tok| - 1] == ':'
  }

  /** One turn of get_sentences's loop at cursor i and current address cur:
      the sentence appended and the cursor after the tokens it consumed. */
  function Step(codes: seq<string>, i: nat, cur: nat): (r: Result<(Sentence, nat)>)
    requires i < |codes|
    ensures r.Ok? ==> i < r.value.1 <= |codes| && r.value.0.startAddress == cur
    ensures r.Ok? ==> WellShaped(r.value.0) && r.value.1 == i + TokensOf(r.value.0)
    ensures r.Ok? ==> (r.value.0.isLabel <==> IsLabelToken(codes[i]))
    ensures r.Ok? && r.value.0.isLabel ==> r.value.0.labelName + [':'] == codes[i]
    ensures r.Ok? && !r.value.0.isLabel ==> r.value.0.instrName == codes[i]
    ensures codes[i] != [] && !IsLabelToken(codes[i]) && codes[i] !in Instructions ==> r == Err(UnknownMnemonic(codes[i]))
    ensures codes[i] == [] ==> r == Err(EmptyToken)
  {
    var tok := codes[i];
    if tok == [] then Err(EmptyToken)
    else if tok[|tok| - 1] == ':' then
      Ok((NewSentence(cur, 0, tok, "", "nil", "nil", 0), i + 1))
    else if tok !in Instructions then Err(UnknownMnemonic(tok))
    else
      match Instructions[tok].shape
      case NoOperand =>
        Ok((NewSentence(cur, 1, "", tok, "nil", "nil", 0), i + 1))
      case RegReg =>
        if i + 2 >= |codes| then Err(MissingOperand(tok))
        else Ok((NewSentence(cur, 2, "", tok, codes[i + 1], codes[i + 2], 0), i + 3))
      case Target =>
        if i + 1 >= |codes| then Err(MissingOperand(tok))
        else Ok((NewSentence(cur, 9, codes[i + 1], tok, "nil", "nil", 0), i + 2))
      case RegRegImm =>
        if i + 3 >= |codes| then Err(MissingOperand(tok))
        else if tok == "irmovq" && !IsNumeral(codes[i + 3]) then
          Ok((NewSentence(cur, 10, codes[i + 3], tok, codes[i + 1], codes[i + 2], 0), i + 4))
        else
          var imm :- ParseImmediate(codes[i + 3]);
          Ok((NewSentence(cur, 10, "", tok, codes[i + 1], codes[i + 2], imm), i + 4))
  }

  /** A label occupies no bytes; an instruction has a mnemonic of the table
      and the byte length of its shape. */
  predicate WellShaped(s: Sentence)
  {
    s.endAddress == s.startAddress + s.length &&
    (s.isLabel ==> s.length == 0 && s.instrName == []) &&
    (!s.isLabel ==> s.instrName in Instructions && s.length == ShapeLength(Instructions[s.instrName].shape))
  }

  /** Tokens a sentence consumed from the stream. */
  function TokensOf(s: Sentence): nat
  {
    if s.isLabel || s.instrName !in Instructions then 1 else ShapeTokens(Instructions[s.instrName].shape)
  }

  /** get_sentences from cursor i onward, starting at address cur. */
  function LayoutFrom(codes: seq<string>, i: nat, cur: nat): Result<seq<Sentence>>
    requires i <= |codes|
    decreases |codes| - i
  {
    if i == |codes| then Ok([])
    else
      var (s, next) :- Step(codes, i, cur);
      Prepend([s], LayoutFrom(codes, next, s.endAddress))
  }

  /** One statement in front of the layout of the rest. */
  lemma LayoutCons(codes: seq<string>, i: nat, cur: nat, s: Sentence, next: nat, rest: seq<Sentence>)
    requires i < |codes| && Step(codes, i, cur) == Ok((s, next))
    requires LayoutFrom(codes, next, s.endAddress) == Ok(rest)
    ensures LayoutFrom(codes, i, cur) == Ok([s] + rest)
  {
  }

  /** Each statement starts where the previous one ends, the first at `cur`. */
  predicate Contiguous(ss: seq<Sentence>, cur: nat)
  {
    (ss != [] ==> ss[0].startAddress == cur) &&
    (forall k :: 0 <= k < |ss| - 1 ==> ss[k + 1].startAddress == ss[k].endAddress)
  }

  function TotalLength(ss: seq<Sentence>): nat
  {
    if ss == [] then 0 else ss[0].length + TotalLength(ss[1..])
  }

  function TotalTokens(ss: seq<Sentence>): nat
  {
    if ss == [] then 0 else TokensOf(ss[0]) + TotalTokens(ss[1..])
  }

  /** The scan lays statements out back to back from `cur`, each with its
      shape's length, consuming every remaining token exactly once; the
      image ends at `cur` plus the sum of the lengths. */
  lemma {:induction false} LayoutInvariants(codes: seq<string>, i: nat, cur: nat)
    requires i <= |codes|
    requires LayoutFrom(codes, i, cur).Ok?
    ensures var ss := LayoutFrom(codes, i, cur).value;
      Contiguous(ss, cur) &&
      (forall k :: 0 <= k < |ss| ==> WellShaped(ss[k])) &&
      TotalTokens(ss) == |codes| - i &&
      (ss != [] ==> ss[|ss| - 1].endAddress == cur + TotalLength(ss))
    decreases |codes| - i
  {
    if i < |codes| {
      var (s, next) := Step(codes, i, cur).value;
      LayoutInvariants(codes, next, s.endAddress);
      var rest := LayoutFrom(codes, next, s.endAddress).value;
      var ss := [s] + rest;
      assert ss[1..] == rest;
      forall k | 0 <= k < |ss| - 1 ensures ss[k + 1].startAddress == ss[k].endAddress {
        if k > 0 {
          assert ss[k + 1] == rest[k] && ss[k] == rest[k - 1];
        }
      }
    }
  }

  /** In a contiguous layout a statement's address is the number of bytes
      of everything before it. */
  lemma {:induction false} StartIsOffset(ss: seq<Sentence>, cur: nat, k: nat)
    requires Contiguous(ss, cur) && forall m :: 0 <= m < |ss| ==> WellShaped(ss[m])
    requires k < |ss|
    ensures ss[k].startAddress == cur + TotalLength(ss[..k])
  {
    if k > 0 {
      StartIsOffset(ss, cur, k - 1);
      assert WellShaped(ss[k - 1]);
      TotalLengthSnoc(ss[..k - 1], ss[k - 1]);
      assert ss[..k - 1] + [ss[k - 1]] == ss[..k];
    }
  }

  lemma {:induction false} TotalLengthSnoc(ss: seq<Sentence>, s: Sentence)
    ensures TotalLength(ss + [s]) == TotalLength(ss) + s.length
  {
    if ss != [] {
      assert (ss + [s])[1..] == ss[1..] + [s];
      TotalLengthSnoc(ss[1..], s);
    } else {
      assert ss + [s] == [s];
    }
  }

  /** A label takes the address of the next instruction after it, and a
      label with no instruction after it takes the image's end address. */
  lemma {:induction false} LabelAddress(ss: seq<Sentence>, cur: nat, k: nat, j: nat)
    requires Contiguous(ss, cur) && forall m :: 0 <= m < |ss| ==> WellShaped(ss[m])
    requires k < j <= |ss| && ss[k].isLabel
    requires forall m :: k < m < j ==> ss[m].isLabel
    ensures j < |ss| ==> ss[k].startAddress == ss[j].startAddress
    ensures j == |ss| ==> ss[k].startAddress == ss[|ss| - 1].endAddress
    decreases j - k
  {
    assert WellShaped(ss[k]);
    if k + 1 < j {
      LabelAddress(ss, cur, k + 1, j);
    }
  }

  /** The numeral test decides the kind of irmovq's operand: a non-numeral
      is a label reference; a bare hex word that is not decimal, such as
      `beef`, passes the test and then fails the decimal parse. */
  lemma IrmovqOperand(codes: seq<string>, i: nat, cur: nat)
    requires i + 3 < |codes| && codes[i] == "irmovq"
    ensures var v := codes[i + 3];
      (!IsNumeral(v) ==> Step(codes, i, cur).Ok? && Step(codes, i, cur).value.0.labelName == v) &&
      (IsNumeral(v) && !(|v| >= 2 && v[..2] == "0x") && !IsDecimal(v) ==> Step(codes, i, cur) == Err(BadNumeral(v))) &&
      (IsNumeral(v) && Step(codes, i, cur).Ok? ==> Step(codes, i, cur).value.0.labelName == [])
  {
  }

  /** Only two kinds of statement refer to a label: a jump or call, and an
      irmovq whose operand fails the numeral test. */
  lemma LabelReferenceSources(codes: seq<string>, i: nat, cur: nat)
    requires i < |codes|
    ensures var r := Step(codes, i, cur);
      r.Ok? && !r.value.0.isLabel && r.value.0.labelName != [] ==>
        codes[i] in Instructions &&
        (Instructions[codes[i]].shape == Target ||
         (codes[i] == "irmovq" && i + 3 < |codes| && !IsNumeral(codes[i + 3])))
  {
  }

  /** rmmovq and mrmovq never take a label: a displacement that fails the
      numeral test fails the integer parse as well. */
  lemma MemoryMoveOperand(codes: seq<string>, i: nat, cur: nat)
    requires i + 3 < |codes| && codes[i] in {"rmmovq", "mrmovq"}
    ensures !IsNumeral(codes[i + 3]) ==> Step(codes, i, cur) == Err(BadNumeral(codes[i + 3]))
    ensures Step(codes, i, cur).Ok? ==> Step(codes, i, cur).value.0.labelName == []
  {
    assert Instructions[codes[i]].shape == RegRegImm;
  }

  /** get_sentences as the loop the source runs: a cursor over the tokens
      that each turn appends one sentence at the previous one's end address. */
  method GetSentences(codes: seq<string>) returns (r: Result<seq<Sentence>>)
    ensures r == LayoutFrom(codes, 0, 0)
    ensures r.Ok? ==> Contiguous(r.value, 0) && forall k :: 0 <= k < |r.value| ==> WellShaped(r.value[k])
  {
    var sentences: seq<Sentence> := [];
    var i := 0;
    PrependNothing(LayoutFrom(codes, 0, 0));
    while i < |codes|
      invariant 0 <= i <= |codes|
      invariant sentences == [] ==> i == 0
      invariant LayoutFrom(codes, 0, 0) ==
        Prepend(sentences, LayoutFrom(codes, i, if sentences != [] then sentences[|sentences| - 1].endAddress else 0))
      decreases |codes| - i
    {
      var currentAddress := if sentences != [] then sentences[|sentences| - 1].endAddress else 0;
      var step := Step(codes, i, currentAddress);
      if step.Err? {
        return Err(step.error);
      }
      var (s, next) := step.value;
      PrependAssociative(sentences, [s], LayoutFrom(codes, next, s.endAddress));
      sentences := sentences + [s];
      i := next;
    }
    assert sentences + [] == sentences;
    r := Ok(sentences);
    LayoutInvariants(codes, 0, 0);
  }

  // One turn of get_sentences for each shape, the sentence written out.

  lemma NoOperandStep(codes: seq<string>, i: nat, cur: nat)
    requires i < |codes| && codes[i] != [] && !IsLabelToken(codes[i])
    requires codes[i] in Instructions && Instructions[codes[i]].shape == NoOperand
    ensures Step(codes, i, cur) == Ok((Sentence(cur, cur + 1, 1, "", codes[i], "nil", "nil", 0, false), i + 1))
  {
  }

  lemma RegRegStep(codes: seq<string>, i: nat, cur: nat)
    requires i + 2 < |codes| && codes[i] != [] && !IsLabelToken(codes[i])
    requires codes[i] in Instructions && Instructions[codes[i]].shape == RegReg
    requires codes[i + 1] != "0xf" && codes[i + 2] != "0xf"
    ensures Step(codes, i, cur) == Ok((Sentence(cur, cur + 2, 2, "", codes[i], codes[i + 1], codes[i + 2], 0, false), i + 3))
  {
  }

  lemma TargetStep(codes: seq<string>, i: nat, cur: nat)
    requires i + 1 < |codes| && codes[i] != [] && !IsLabelToken(codes[i])
    requires codes[i] in Instructions && Instructions[codes[i]].shape == Target
    ensures Step(codes, i, cur) == Ok((Sentence(cur, cur + 9, 9, codes[i + 1], codes[i], "nil", "nil", 0, false), i + 2))
  {
  }

  lemma ImmediateStep(codes: seq<string>, i: nat, cur: nat, imm: nat)
    requires i + 3 < |codes| && codes[i] != [] && !IsLabelToken(codes[i])
    requires codes[i] in Instructions && Instructions[codes[i]].shape == RegRegImm
    requires codes[i + 1] != "0xf" && codes[i + 2] != "0xf"
    requires IsNumeral(codes[i + 3]) && ParseImmediate(codes[i + 3]) == Ok(imm)
    ensures Step(codes, i, cur) == Ok((Sentence(cur, cur + 10, 10, "", codes[i], codes[i + 1], codes[i + 2], imm, false), i + 4))
  {
  }

  /** An irmovq whose operand fails the numeral test: a 10-byte statement
      with the registers in order, referring to the operand as a label,
      with the immediate left at 0. */
  lemma LabelOperandStep(codes: seq<string>, i: nat, cur: nat)
    requires i + 3 < |codes| && codes[i] == "irmovq" && !IsNumeral(codes[i + 3])
    requires codes[i + 1] != "0xf" && codes[i + 2] != "0xf"
    ensures Step(codes, i, cur) == Ok((Sentence(cur, cur + 10, 10, codes[i + 3], "irmovq", codes[i + 1], codes[i + 2], 0, false), i + 4))
  {
    assert "irmovq" in Instructions && Instructions["irmovq"].shape == RegRegImm;
  }

  lemma LabelStep(codes: seq<string>, i: nat, cur: nat)
    requires i < |codes| && IsLabelToken(codes[i])
    ensures Step(codes, i, cur) == Ok((Sentence(cur, cur, 0, codes[i][..|codes[i]| - 1], "", "nil", "nil", 0, true), i + 1))
  {
  }
}
