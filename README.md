# A verified model of the y86asblr Y86-64 assembler

`y86asblr.py` translates Y86-64 assembly text into hexadecimal machine
words, one line per instruction. It works in five stages:

1. It strips `#` comments.
2. It strips the punctuation `( ) , $ %`.
3. It splits the text into lines of tokens.
4. It rewrites the operand order of `irmovq`, `rmmovq` and `mrmovq` into
   the canonical `mnemonic r1 r2 operand` form and flattens all lines into
   one token stream (`pre_process`). It means to pad `pushq` and `popq`
   with a `nil` register, but as written that branch raises `TypeError`
   (see Findings).
5. It lays the stream out as statements with byte addresses
   (`get_sentences`). Then it encodes every non-label statement as its
   opcode, register digits and an 8-byte little-endian field
   (`get_hexcodes`, `bige2lite`).

This project models those stages in Dafny.

- `outcome.dfy` (`Outcome`) holds the error values. Every place where the
  Python code would raise (`KeyError`, `IndexError`, `ValueError`,
  `TypeError`) is a `Result` error here.
- `tables.dfy` (`Tables`) holds the instruction and register tables.
  Opcodes are two lower-case hex digits by type, and register codes are
  below 16.
- `filters.dfy` (`TextFilters`) models the two regular-expression filters
  as character scans.
- `numerals.dfy` (`Numerals`) models `int(a)`, `int(a, 16)` and
  `is_str_10or16based_num` on their digit strings.
- `hexfield.dfy` (`HexField`) models `"%0.16x"` and `bige2lite`. It relates
  the field to a reference little-endian byte serialisation and to its
  decoding.
- `normalizer.dfy` (`Normalizer`) models `pre_process`.
- `layout.dfy` (`Layout`) models the `sentence` record and `get_sentences`.
- `encoder.dfy` (`Encoder`) models the label lookup and `get_hexcodes`.
- `assembler.dfy` (`Assembler`) models the three stage calls of `main`.
- `scenarios.dfy` (`Scenarios`) follows whole programs through the pipeline,
  worked out stage by stage.

The loops of the source are methods proved equal to recursive
specification functions:

- `Normalizer.PreProcess`
- `Layout.GetSentences`
- `Encoder.GetHexcodes` with `Encoder.EncodeStatement`
- `Encoder.FindLabel`
- `HexField.Bige2lite`

The properties of the pipeline are lemmas about those functions.

A `sentence` is built once by its constructor and never changed afterwards,
so it is a datatype (`Layout.Sentence`) built by `Layout.NewSentence`.

What the code does, and the model with it:

- It has no layout directives. It declares a `directives` table
  (`.pos`, `.align`, `.quad`) but never reads it. A directive token is
  looked up whole in the instruction table, which raises `KeyError`; the
  model returns `UnknownMnemonic` there.
- It has no stage that compacts runs of no-op words.
- It has no range check on immediates and no two's-complement handling.
  `int()` accepts a signed operand such as `-5`, and `"%0.16x"` of a
  negative number starts with `-`, so a negative immediate becomes a field
  containing `-`, which is no encoding. The model reads unsigned digit
  strings only (see Left out).
- When a label is defined twice, it keeps the last definition.
- An undefined label gets a diagnostic and the placeholder 0.
- Its `pushq`/`popq` branch fails (see Findings). The model has both the
  code as written (`intended` false) and the corrected padding
  (`intended` true) and proves them equal on every program without a push
  or a pop.

## Model

| member | source | states |
|---|---|---|
| Tables.MnemonicsAreNotLabels | y86asblr.py:9-37 | no mnemonic is empty or ends in `:`, so the label test never takes an instruction for a label |
| Tables.RegisterTableWellFormed | y86asblr.py:39-42 | register codes are pairwise distinct and `nil` has code 15 (the "no register" digit f) |
| Tables.ShapeLength | y86asblr.py:159-175 | a statement is 1 byte plus one byte of register digits for the register shapes plus an 8-byte field for the target shapes |
| TextFilters.RemoveSymbols | y86asblr.py:82-83 | the characters of the result are exactly the input's characters other than `( ) , $ %`, and the result is no longer |
| TextFilters.RemoveSymbolsAppend | y86asblr.py:82-83 | the filter works character by character: it distributes over concatenation |
| TextFilters.RemoveSymbolsKeepsPlainText | y86asblr.py:82-83 | text without those symbols is unchanged |
| TextFilters.RemoveSymbolsIdempotent | y86asblr.py:82-83 | filtering twice is filtering once |
| TextFilters.RemoveComments | y86asblr.py:78-79 | no `#` survives, and the result is no longer |
| TextFilters.RemoveCommentsLine | y86asblr.py:78-79 | on one line the result is the text before the first `#` (reference definition `UpToHash`) |
| TextFilters.RemoveCommentsLines | y86asblr.py:78-79 | `.` does not match a newline, so the newline is kept and each line is filtered independently |
| TextFilters.RemoveCommentsKeepsPlainText | y86asblr.py:78-79 | text without `#` is unchanged |
| TextFilters.RemoveCommentsIdempotent | y86asblr.py:78-79 | filtering twice is filtering once |
| Numerals.ParseDec | y86asblr.py:184 | `int(v)` succeeds exactly on a non-empty decimal digit string, with the positional value `DecValue`, and the error names the text |
| Numerals.ParseHex | y86asblr.py:182 | `int(v, 16)` succeeds exactly on hex digits, optionally after `0x`/`0X`, with the base-16 value of the digits after the prefix, and the error names the text |
| Numerals.DecValueAppend | y86asblr.py:184 | decimal reading is positional: the digits of a count 10^|b| times as much in front of b |
| Numerals.DecimalTextValue | y86asblr.py:184 | `int(str(n)) == n`: the decimal rendering of a value parses back to it |
| Numerals.IsNumeral | y86asblr.py:92-103 | the test is true exactly for hex digit strings, optionally `0x`/`0X`-prefixed, and every decimal string passes it |
| Numerals.DecimalIsAlsoHex | y86asblr.py:92-103 | a decimal string parses both as decimal and as hex, so the second `try` is reached only by non-decimal text |
| HexField.FixedHexValue | y86asblr.py:86 | n hex digits of a number that fits in n digits read back as that number |
| HexField.FormatHex16Value | y86asblr.py:86 | `"%0.16x" % a` reads back as a, and a text longer than 16 digits has no leading zero |
| HexField.FormatHex16Small | y86asblr.py:86 | below 2^64, `"%0.16x"` is exactly the 16-digit big-endian text |
| HexField.LittleEndianHexIsLeBytes | y86asblr.py:85-90 | below 2^64, bige2lite equals the reference serialisation: 8 bytes, least significant first |
| HexField.DecodeLeBytes | y86asblr.py:85-90 | decoding the reference serialisation of n bytes gives the number back |
| HexField.LittleEndianHexRoundTrip | y86asblr.py:85-90 | below 2^64, bige2lite's text decodes back to a, and its k-th pair is byte k of a (`(a >> 8k) & 0xff`) |
| HexField.ReversePairsLowerHex | y86asblr.py:88-89 | reversing the order of the digit pairs keeps a lower-case hex text lower-case hex |
| HexField.CollectPairs | y86asblr.py:87-89 | the loop appends the pairs `tmp[14-i:16-i]` for i = 0, 2, …, 14, which is the first 16 digits with their pair order reversed |
| HexField.Bige2lite | y86asblr.py:85-90 | the pair-reversing loop returns the field for every a; below 2^64 it is the 8-byte little-endian text and decodes back to a |
| Normalizer.NormalizeLineKeepsMnemonic | y86asblr.py:113-134 | every rewritten line is non-empty and keeps its mnemonic in front |
| Normalizer.NormalizeMoveForms | y86asblr.py:115-131 | an irmovq line is rewritten iff it has 2 or more tokens, rmmovq/mrmovq iff 3 or more, always into 4 tokens |
| Normalizer.IrmovqRewrite | y86asblr.py:115-116 | an irmovq line of any length 2 or more becomes `irmovq nil` + its last token + its second token |
| Normalizer.RmmovqCanonical | y86asblr.py:121-123 | `rmmovq rA D rB` becomes `rmmovq rA rB D` |
| Normalizer.MrmovqCanonical | y86asblr.py:127-129 | `mrmovq D rB rA` becomes `mrmovq rB rA D` |
| Normalizer.MemoryMoveDefault | y86asblr.py:124-125 | a memory move of 3 tokens, or 5 or more, keeps its first three tokens and gets the displacement `0` (same rule at 130-131) |
| Normalizer.NormalizeMemoryMoves | y86asblr.py:121-131 | a 4-token rmmovq/mrmovq line is a reordering of its own tokens; any other line of 3 or more gets the displacement `0` after its first three |
| Normalizer.NormalizeCons | y86asblr.py:107-137 | a non-empty line's rewriting comes in front of the rewriting of the lines after it |
| Normalizer.IrmovqCanonical | y86asblr.py:115-116 | `irmovq V rB` becomes `irmovq nil rB V` |
| Normalizer.NormalizePushPop | y86asblr.py:118-119 | as written, a pushq/popq line fails (`append` returns None); corrected, it is padded with `nil` |
| Normalizer.NormalizePassThrough | y86asblr.py:133-134 | every other line passes unchanged |
| Normalizer.NormalizeAppend | y86asblr.py:105-138 | normalising a + b is normalising a, then b, concatenated; the first failing line stops it |
| Normalizer.NormalizeSkipsEmptyLine | y86asblr.py:109-110 | an empty line contributes nothing |
| Normalizer.PushPopRejected | y86asblr.py:118-137 | as written, any program with a pushq or popq line fails in pre_process |
| Normalizer.CorrectionOnlyTouchesPushPop | y86asblr.py:118-119 | the corrected padding agrees with the code as written on every program without pushq/popq |
| Normalizer.PreProcess | y86asblr.py:105-138 | the loop's result is the concatenation of the rewritten non-empty lines, or the first line's error |
| Layout.NewSentence | y86asblr.py:56-67 | end address = start + length; it is a label iff it has a name and no mnemonic, and a label loses its `:`; a `0xf` register becomes `nil` |
| Layout.ParseImmediate | y86asblr.py:181-184 | with a `0x` prefix the operand is parsed as hex, otherwise as decimal; it succeeds exactly on the matching digit strings, with their value |
| Layout.DecimalImmediate | y86asblr.py:181-184 | an immediate written in decimal reads back as its value |
| Layout.HexImmediate | y86asblr.py:181-182 | an immediate written as `0x` and lower-case hex digits reads back as its value |
| Layout.Step | y86asblr.py:146-190 | one statement at the current address: well shaped, consuming its shape's tokens, a label iff the token ends in `:`, an unknown mnemonic or an empty token rejected |
| Layout.LayoutCons | y86asblr.py:146-190 | one statement in front of the layout of the tokens after it, which starts at its end address |
| Layout.LabelStep | y86asblr.py:148-149 | a token ending in `:` is a label statement of length 0 at the current address, named without its `:` |
| Layout.NoOperandStep | y86asblr.py:158-161 | a mnemonic without operands is a 1-byte statement with no registers, consuming one token |
| Layout.RegRegStep | y86asblr.py:163-167 | a register-register mnemonic is a 2-byte statement with the next two tokens as registers, consuming three tokens |
| Layout.TargetStep | y86asblr.py:169-172 | a jump or call is a 9-byte statement referring to the next token as label, consuming two tokens |
| Layout.ImmediateStep | y86asblr.py:174-185 | a register-register-immediate mnemonic with a numeral operand is a 10-byte statement carrying the parsed value, consuming four tokens |
| Layout.LabelOperandStep | y86asblr.py:174-179 | an irmovq whose operand fails the numeral test is a 10-byte statement with the registers in order, referring to the operand as a label, immediate 0, consuming four tokens |
| Layout.LayoutInvariants | y86asblr.py:143-191 | statements are contiguous from the start address, well shaped, consume every token exactly once, and the last one ends at the total length |
| Layout.StartIsOffset | y86asblr.py:147 | a statement's address is the number of bytes before it |
| Layout.LabelAddress | y86asblr.py:147-149 | a label takes the address of the next instruction after it, or the end of the image |
| Layout.IrmovqOperand | y86asblr.py:178-185 | a non-numeral irmovq operand is a label reference; a numeral is an immediate; a bare hex word that is not decimal (`beef`) is rejected by the decimal parse |
| Layout.LabelReferenceSources | y86asblr.py:169-179 | an instruction statement refers to a label only when it is a jump or call, or an irmovq whose operand fails the numeral test |
| Layout.MemoryMoveOperand | y86asblr.py:174-184 | rmmovq and mrmovq never take a label: a displacement that fails the numeral test fails the integer parse |
| Layout.GetSentences | y86asblr.py:143-191 | the cursor loop yields the recursive layout, which is contiguous and well shaped |
| Encoder.LastLabelSpec | y86asblr.py:212-220 | no result iff no statement defines the label; otherwise the address of a definition with no later definition after it |
| Encoder.FindLabel | y86asblr.py:212-223 | `found` iff the label is defined; the target is the last definition's address, else 0 |
| Encoder.RegDigit | y86asblr.py:208-209 | succeeds iff the register is in the table, giving a lower-case digit whose value is the register code |
| Encoder.NoOperandWord | y86asblr.py:202-205 | a statement without operands encodes as its opcode alone |
| Encoder.RegRegWord | y86asblr.py:202-209 | a register-register statement encodes as its opcode followed by the two register digits |
| Encoder.TargetWord | y86asblr.py:211-223 | a jump or call encodes as its opcode followed by the field of its label's resolved address |
| Encoder.ImmediateWord | y86asblr.py:226-243 | an immediate statement without a label encodes as opcode, register digits, then the field of the immediate |
| Encoder.LabelImmediateWord | y86asblr.py:226-241 | an irmovq with a label operand encodes as `30`, the register digits, then the field of the label's last definition's address, or of 0 when it is undefined |
| Encoder.HexcodesCons | y86asblr.py:197-247 | an instruction's word comes in front of the words of the statements after it |
| Encoder.EncodedWord | y86asblr.py:198-243 | a word is lower-case hex, two characters per byte of its statement, starts with the opcode, carries the register codes as digits, and ends with the field of the resolved label address (jump, call, or irmovq with a label operand) or else of the immediate, which decodes back below 2^64 |
| Encoder.EncodeFailsOnlyOnRegisters | y86asblr.py:202-228 | a well-shaped instruction fails to encode iff its shape has registers and one of them is not in the table |
| Encoder.HexcodesWords | y86asblr.py:195-248 | one word per non-label statement, in order, each that statement's encoding |
| Encoder.HexcodesSize | y86asblr.py:195-248 | the output has exactly two hex characters for every byte of the layout |
| Encoder.EncodeStatement | y86asblr.py:198-247 | the accumulation of `hcode` builds the statement's encoding |
| Encoder.GetHexcodes | y86asblr.py:195-248 | the loop, which skips labels and looks labels up over the whole list, yields the recursive encoding |
| Assembler.AssembleLines | y86asblr.py:256-258 | the three stage calls compose pre_process, get_sentences and get_hexcodes, each stage's error stopping the run; with `intended` false a pushq/popq program fails as main does, with `intended` true it uses the corrected padding |
| Assembler.ImageSize | y86asblr.py:256-258 | the image has two hex characters per laid-out byte, and the last statement ends at that byte count |
| Assembler.ReferenceResolvesToOffset | y86asblr.py:214-220 | a defined label resolves to the byte offset of its last definition in the image |
| Assembler.PushPopAsWritten | y86asblr.py:118-119 | as written, no program containing pushq or popq assembles |
| Assembler.PushPopPadded | y86asblr.py:118-119 | with the corrected padding, the line `pushq rA` becomes the tokens `pushq rA nil` |
| Assembler.PushPopLaidOut | y86asblr.py:163-167 | `pushq rA nil` lays out as one 2-byte statement at address 0 |
| Assembler.PushPopWord | y86asblr.py:202-209 | that statement encodes as the opcode, rA's digit and `f` |
| Assembler.PushPopIntended | y86asblr.py:118-119 | with the corrected padding, `pushq rA`/`popq rA` assembles to opcode, rA's code, `f` |
| Scenarios.LoadMoveHaltAssembles | y86asblr.py:251-258 | `irmovq $10,%rax; rrmovq %rax,%rbx; halt` assembles to `30f00a00000000000000`, `2003`, `00` |
| Scenarios.JumpAheadTarget | y86asblr.py:212-220 | in the second program the forward reference `done` resolves to 10, the address of `halt` |
| Scenarios.JumpAheadLaidOut | y86asblr.py:146-190 | the jump takes 9 bytes, the nop 1, and the label `done:` takes none at address 10 |
| Scenarios.LoadMoveHaltEncoded | y86asblr.py:195-248 | the load word carries 10 as the little-endian field `0a00000000000000` |
| Scenarios.JumpAheadAssembles | y86asblr.py:251-258 | a forward jump to a label resolves to the address of the instruction after the label: `700a00000000000000`, `10`, `00` |
| Scenarios.LoadLabelLaidOut | y86asblr.py:146-190 | `irmovq data, %rsp` lays out as a 10-byte label reference, `halt` as 1 byte, and `data:` at 11 |
| Scenarios.LoadLabelTarget | y86asblr.py:229-237 | in the third program the reference `data` resolves to 11, the end of the image |
| Scenarios.LoadLabelAssembles | y86asblr.py:251-258 | `irmovq data, %rsp; halt; data:` assembles to `30f40b00000000000000`, `00`: the irmovq carries the label's address |
| Scenarios.BareHexImmediateRejected | y86asblr.py:178-184 | `irmovq beef, %rax` passes the numeral test and then fails `int("beef")` |

## Left out

- Reading the source file, writing the `.bin` file and splitting text into
  lines and tokens (`main`, `str.split`): the model starts from the token
  lines and ends with the list of words. Nothing here does I/O.
- The `print` diagnostics: an undefined label's message is modelled as the
  `found` flag of `Encoder.FindLabel`; the word uses 0 as in the code.
- `sentence.__repr__` and the commented-out debugging prints: they only
  produce text for a human.
- The regular-expression engine: both filters are modelled as scans over
  the characters they match.
- Numerals.ParseDec: Python's `int()` also accepts a sign, surrounding
  whitespace and `_` between digits. Tokens come from `split()`, so they
  hold no whitespace; a signed or underscored numeral is rejected here.
- Numerals.IsNumeral: for the same reason, a signed operand such as `-5`
  counts as a non-numeral here, and an irmovq with it is taken as a label
  reference. Python parses it as -5, and `bige2lite` then writes a field
  that contains `-` rather than an encoding of the value.
- HexField.Bige2lite: defined on non-negative numbers only. Python formats
  a negative number as `-` followed by digits, which has no field meaning.
  The round trip is proved below 2^64; above it the model keeps the first
  16 digits of the longer text, as the code does.
- Layout directives (`.pos`, `.align`, `.quad`) and no-op compaction: the
  code declares a `directives` table but never uses it, and it has no
  compaction stage.
- Layout.Sentence: the Python object's fields are assigned only in its
  constructor, so it is a value here. No aliasing is modelled.

## Findings

| source | as written | input that shows it | evidently intended | confidence | as-written member | corrected member |
|---|---|---|---|---|---|---|
| y86asblr.py:118-119 | `newline = line.append('nil')` stores `None` (list.append returns None), and `res.extend(newline)` at line 137 then raises `TypeError` | the line `pushq %rbx`, tokens `["pushq", "rbx"]` | pad the line with `nil` and extend by the padded line, so that `pushq rA` encodes as `a0` rA `f` | high, not executed | Assembler.PushPopAsWritten | Assembler.PushPopIntended |
