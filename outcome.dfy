/** Results of the assembler's stages. Every Python exception that can
    escape the pipeline becomes an error value; the run stops at the first. */
module Outcome {

  datatype Option<T> = None | Some(value: T)

  /** Why an assembly run stops. */
  datatype Error =
    | EmptyToken                    // `codes[i][-1]` on an empty token (IndexError)
    | MissingOperand(name: string)  // an operand index past the end of a line or of the token list (IndexError)
    | UnknownMnemonic(name: string) // `instructions[...]` on a name that is not a key (KeyError)
    | UnknownRegister(name: string) // `regs2num[...]` on a name that is not a key (KeyError)
    | BadNumeral(text: string)      // `int(...)` rejects the text (ValueError)
    | AppendReturnsNone             // `res.extend(None)` after `line.append('nil')` (TypeError)

  datatype Result<T> = Ok(value: T) | Err(error: Error) {
    predicate IsFailure() {
      Err?
    }

    function PropagateFailure<U>(): Result<U>
      requires Err?
    {
      Err(error)
    }

    function Extract(): T
      requires Ok?
    {
      value
    }
  }

  /** Prefix a successful sequence result with `p`; an error passes through. */
  function Prepend<T>(p: seq<T>, r: Result<seq<T>>): (q: Result<seq<T>>)
    ensures q.Ok? <==> r.Ok?
    ensures q.Ok? ==> q.value == p + r.value
    ensures q.Err? ==> q == r
  {
    match r
    case Ok(rest) => Ok(p + rest)
    case Err(e) => Err(e)
  }

  lemma PrependAssociative<T>(p: seq<T>, q: seq<T>, r: Result<seq<T>>)
    ensures Prepend(p, Prepend(q, r)) == Prepend(p + q, r)
  {
    if r.Ok? {
      assert p + (q + r.value) == (p + q) + r.value;
    }
  }

  lemma PrependNothing<T>(r: Result<seq<T>>)
    ensures Prepend([], r) == r
  {
    if r.Ok? {
      assert [] + r.value == r.value;
    }
  }

  // Short sequences taken apart and put together, stated once.

  lemma Joined1<T>(a: T)
    ensures [a] + [] == [a]
  {
  }

  lemma Joined2<T>(a: T, b: T)
    ensures [a] + [b] == [a, b] && [a, b][1..] == [b]
  {
  }

  lemma Joined3<T>(a: T, b: T, c: T)
    ensures [a] + [b, c] == [a, b, c] && [a, b, c][1..] == [b, c]
  {
  }

  lemma Joined4<T>(a: T, b: T, c: T, d: T)
    ensures [a] + [b, c, d] == [a, b, c, d] && [a, b, c, d][1..] == [b, c, d]
  {
  }
}
