/** pre_process: rewrite the operand order of irmovq, rmmovq and mrmovq into
    the canonical `mnemonic r1 r2 operand` form and flatten the lines into
    one token stream. */
module Normalizer {
  import opened Outcome

  /** pre_process's `match line[0]` on one non-empty line. With `intended`
      false this is the code as written: for pushq and popq the code pads
      the line with `line.append('nil')`, which returns None, and
      `res.extend(None)` then fails. With `intended` true the padded line
      itself is used, which is what the padding is evidently for. */
  function NormalizeLine(line: seq<string>, intended: bool): (r: Result<seq<string>>)
    requires line != []
  {
    match line[0]
    case "irmovq" =>
      if |line| < 2 then Err(MissingOperand("irmovq"))
      else Ok(["irmovq", "nil", line[|line| - 1], line[1]])
    case "pushq" =>
      if intended then Ok(line + ["nil"]) else Err(AppendReturnsNone)
    case "popq" =>
      if intended then Ok(line + ["nil"]) else Err(AppendReturnsNone)
    case "rmmovq" =>
      if |line| == 4 then
        Ok([line[0], line[1], line[3], line[2]])
      else if |line| < 3 then Err(MissingOperand("rmmovq"))
      else Ok([line[0], line[1], line[2], "0"])
    case "mrmovq" =>
      if |line| == 4 then
        Ok([line[0], line[2], line[3], line[1]])
      else if |line| < 3 then Err(MissingOperand("mrmovq"))
      else Ok([line[0], line[1], line[2], "0"])
    case _ => Ok(line)
  }

  /** Every rewritten line keeps its mnemonic in front. */
  lemma NormalizeLineKeepsMnemonic(line: seq<string>, intended: bool)
    requires line != []
    ensures NormalizeLine(line, intended).Ok? ==>
      NormalizeLine(line, intended).value != [] && NormalizeLine(line, intended).value[0] == line[0]
  {
  }

  /** The three move forms become exactly four tokens, and fail only when
      the line is too short to read its operands. */
  lemma NormalizeMoveForms(line: seq<string>, intended: bool)
    requires line != [] && line[0] in {"irmovq", "rmmovq", "mrmovq"}
    ensures NormalizeLine(line, intended).Ok? <==> |line| >= (if line[0] == "irmovq" then 2 else 3)
    ensures NormalizeLine(line, intended).Ok? ==> |NormalizeLine(line, intended).value| == 4
  {
  }

  /** `irmovq V rB` with any number of tokens: the last token is the
      destination register and the second the value, whatever lies
      between. */
  lemma IrmovqRewrite(line: seq<string>, intended: bool)
    requires |line| >= 2 && line[0] == "irmovq"
    ensures NormalizeLine(line, intended) == Ok(["irmovq", "nil", line[|line| - 1], line[1]])
  {
  }

  /** `rmmovq rA D rB` becomes `rmmovq rA rB D`: the registers first, the
      displacement in the operand slot. */
  lemma RmmovqCanonical(ra: string, d: string, rb: string, intended: bool)
    ensures NormalizeLine(["rmmovq", ra, d, rb], intended) == Ok(["rmmovq", ra, rb, d])
  {
  }

  /** `mrmovq D rB rA` becomes `mrmovq rB rA D`: the base register first,
      the destination second, the displacement in the operand slot. */
  lemma MrmovqCanonical(d: string, rb: string, ra: string, intended: bool)
    ensures NormalizeLine(["mrmovq", d, rb, ra], intended) == Ok(["mrmovq", rb, ra, d])
  {
  }

  /** A memory move with 3 tokens, or with 5 or more, keeps its first three
      tokens and gets the displacement "0"; the tokens after the third are
      dropped. */
  lemma MemoryMoveDefault(line: seq<string>, intended: bool)
    requires line != [] && line[0] in {"rmmovq", "mrmovq"} && |line| >= 3 && |line| != 4
    ensures NormalizeLine(line, intended) == Ok(line[..3] + ["0"])
  {
    assert line[..3] + ["0"] == [line[0], line[1], line[2], "0"];
  }

  /** rmmovq and mrmovq: a 4-token line is only reordered, so it keeps its
      tokens; any other line of 3 or more gets the displacement "0". */
  lemma NormalizeMemoryMoves(line: seq<string>, intended: bool)
    requires line != [] && line[0] in {"rmmovq", "mrmovq"}
    ensures |line| == 4 ==> multiset(NormalizeLine(line, intended).value) == multiset(line)
    ensures |line| >= 3 && |line| != 4 ==> NormalizeLine(line, intended) == Ok(line[..3] + ["0"])
  {
    if |line| == 4 {
      assert line == [line[0], line[1], line[2], line[3]];
      if line[0] == "rmmovq" {
        RmmovqCanonical(line[1], line[2], line[3], intended);
      } else {
        MrmovqCanonical(line[1], line[2], line[3], intended);
      }
      SwappedOperands(line[0], line[1], line[2], line[3]);
    } else if |line| >= 3 {
      MemoryMoveDefault(line, intended);
    }
  }

  /** Exchanging two parts of a sequence keeps its elements. */
  lemma SwapParts<T>(a: seq<T>, b: seq<T>)
    ensures multiset(a + b) == multiset(b + a)
  {
  }

  /** Both operand reorderings of a 4-token move keep its tokens. */
  lemma SwappedOperands<T>(m: T, x: T, y: T, z: T)
    ensures multiset([m, x, z, y]) == multiset([m, x, y, z])
    ensures multiset([m, y, z, x]) == multiset([m, x, y, z])
  {
    SwapParts([z], [y]);
    assert [m, x, z, y] == [m, x] + ([z] + [y]);
    assert [m, x, y, z] == [m, x] + ([y] + [z]);
    SwapParts([y, z], [x]);
    assert [m, y, z, x] == [m] + ([y, z] + [x]);
    assert [m, x, y, z] == [m] + ([x] + [y, z]);
  }

  /** pushq and popq: an error as written; the padded line as intended. */
  lemma NormalizePushPop(line: seq<string>, intended: bool)
    requires line != [] && line[0] in {"pushq", "popq"}
    ensures NormalizeLine(line, intended) == if intended then Ok(line + ["nil"]) else Err(AppendReturnsNone)
  {
  }

  /** Every other line passes through unchanged. */
  lemma NormalizePassThrough(line: seq<string>, intended: bool)
    requires line != [] && line[0] !in {"irmovq", "rmmovq", "mrmovq", "pushq", "popq"}
    ensures NormalizeLine(line, intended) == Ok(line)
  {
  }

  /** pre_process over all lines: empty lines are skipped, the others are
      rewritten and concatenated in order; the first failing line stops it. */
  function Normalize(lines: seq<seq<string>>, intended: bool): Result<seq<string>>
  {
    if lines == [] then Ok([])
    else if lines[0] == [] then Normalize(lines[1..], intended)
    else
      var nl :- NormalizeLine(lines[0], intended);
      Prepend(nl, Normalize(lines[1..], intended))
  }

  /** One non-empty line in front of the rest. */
  lemma NormalizeCons(lines: seq<seq<string>>, intended: bool, nl: seq<string>, rest: seq<string>)
    requires lines != [] && lines[0] != []
    requires NormalizeLine(lines[0], intended) == Ok(nl) && Normalize(lines[1..], intended) == Ok(rest)
    ensures Normalize(lines, intended) == Ok(nl + rest)
  {
  }

  /** The source's rewriting of the load-immediate form: `irmovq V rB`
      becomes `irmovq nil rB V`, the value moved to the operand slot and
      the unused first register slot filled with nil. */
  lemma IrmovqCanonical(v: string, rb: string)
    ensures NormalizeLine(["irmovq", v, rb], false) == Ok(["irmovq", "nil", rb, v])
  {
  }

  /** The result is the concatenation of the parts: normalising a + b is
      normalising a, then b, and failing at a's first bad line if any. */
  lemma {:induction false} NormalizeAppend(a: seq<seq<string>>, b: seq<seq<string>>, intended: bool)
    ensures Normalize(a, intended).Ok? ==> Normalize(a + b, intended) == Prepend(Normalize(a, intended).value, Normalize(b, intended))
    ensures Normalize(a, intended).Err? ==> Normalize(a + b, intended) == Normalize(a, intended)
  {
    if a == [] {
      assert a + b == b;
      PrependNothing(Normalize(b, intended));
    } else {
      assert (a + b)[0] == a[0] && (a + b)[1..] == a[1..] + b;
      NormalizeAppend(a[1..], b, intended);
      if a[0] != [] {
        var nl := NormalizeLine(a[0], intended);
        if nl.Ok? {
          var rest := Normalize(a[1..], intended);
          if rest.Ok? {
            PrependAssociative(nl.value, rest.value, Normalize(b, intended));
          }
        }
      }
    }
  }

  /** An empty line contributes nothing. */
  lemma NormalizeSkipsEmptyLine(a: seq<seq<string>>, b: seq<seq<string>>, intended: bool)
    ensures Normalize(a + [[]] + b, intended) == Normalize(a + b, intended)
  {
    NormalizeAppend(a, [[]] + b, intended);
    assert a + [[]] + b == a + ([[]] + b);
    assert ([[]] + b)[1..] == b;
    NormalizeAppend(a, b, intended);
  }

  /** As written, any program with a pushq or popq line fails. */
  lemma {:induction false} PushPopRejected(lines: seq<seq<string>>, k: nat)
    requires k < |lines| && lines[k] != [] && lines[k][0] in {"pushq", "popq"}
    ensures Normalize(lines, false).Err?
  {
    if k > 0 {
      if lines[0] != [] {
        assert Normalize(lines, false).Ok? ==> NormalizeLine(lines[0], false).Ok?;
      }
      PushPopRejected(lines[1..], k - 1);
    }
  }

  /** The correction changes nothing for a program without pushq or popq. */
  lemma {:induction false} CorrectionOnlyTouchesPushPop(lines: seq<seq<string>>)
    requires forall k :: 0 <= k < |lines| && lines[k] != [] ==> lines[k][0] !in {"pushq", "popq"}
    ensures Normalize(lines, true) == Normalize(lines, false)
  {
    if lines != [] {
      CorrectionOnlyTouchesPushPop(lines[1..]);
      if lines[0] != [] {
        assert NormalizeLine(lines[0], true) == NormalizeLine(lines[0], false);
      }
    }
  }

  /** pre_process as the loop the source runs: `res` grows by each
      rewritten line. `intended` selects the corrected pushq/popq padding. */
  method PreProcess(codes: seq<seq<string>>, intended: bool) returns (r: Result<seq<string>>)
    ensures r == Normalize(codes, intended)
  {
    var res: seq<string> := [];
    var k := 0;
    assert codes[0..] == codes;
    PrependNothing(Normalize(codes, intended));
    while k < |codes|
      invariant 0 <= k <= |codes|
      invariant Normalize(codes, intended) == Prepend(res, Normalize(codes[k..], intended))
    {
      var line := codes[k];
      assert codes[k..][0] == line && codes[k..][1..] == codes[k + 1..];
      if line != [] {
        var newline := NormalizeLine(line, intended);
        if newline.Err? {
          return Err(newline.error);
        }
        PrependAssociative(res, newline.value, Normalize(codes[k + 1..], intended));
        res := res + newline.value;
      }
      k := k + 1;
    }
    assert codes[k..] == [];
    assert res + [] == res;
    r := Ok(res);
  }
}
