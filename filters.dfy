/** The two text filters applied to the whole source text before it is
    split into lines and tokens: `remove_comments` (the regular expression
    `#.*`) and `remove_symbols` (the character class `[(),$%]`). */
module TextFilters {

  /** The characters `remove_symbols` deletes. */
  predicate IsSymbol(c: char)
  {
    c == '(' || c == ')' || c == ',' || c == '$' || c == '%'
  }

  /** remove_symbols: delete every symbol character, keep the rest in order. */
  function RemoveSymbols(s: string): (r: string)
    ensures |r| <= |s|
    ensures forall c :: c in r <==> c in s && !IsSymbol(c)
  {
    if s == [] then []
    else (if IsSymbol(s[0]) then [] else [s[0]]) + RemoveSymbols(s[1..])
  }

  /** Filtering distributes over concatenation: each part is filtered on its
      own and the order of what is kept does not change. */
  lemma {:induction false} RemoveSymbolsAppend(a: string, b: string)
    ensures RemoveSymbols(a + b) == RemoveSymbols(a) + RemoveSymbols(b)
  {
    if a != [] {
      assert (a + b)[0] == a[0] && (a + b)[1..] == a[1..] + b;
      RemoveSymbolsAppend(a[1..], b);
    } else {
      assert a + b == b;
    }
  }

  /** A text with no symbol character passes through unchanged. */
  lemma {:induction false} RemoveSymbolsKeepsPlainText(s: string)
    requires forall i :: 0 <= i < |s| ==> !IsSymbol(s[i])
    ensures RemoveSymbols(s) == s
  {
    if s != [] {
      RemoveSymbolsKeepsPlainText(s[1..]);
    }
  }

  /** Filtering twice is filtering once. */
  lemma RemoveSymbolsIdempotent(s: string)
    ensures RemoveSymbols(RemoveSymbols(s)) == RemoveSymbols(s)
  {
    var r := RemoveSymbols(s);
    forall i | 0 <= i < |r| ensures !IsSymbol(r[i]) {
      assert r[i] in r;
    }
    RemoveSymbolsKeepsPlainText(r);
  }

  /** Skip a comment body: drop characters up to, but not including, the
      next newline (`.` does not match a newline). */
  function SkipComment(s: string): (r: string)
    ensures |r| <= |s|
    ensures r == [] || r[0] == '\n'
  {
    if s == [] || s[0] == '\n' then s else SkipComment(s[1..])
  }

  /** remove_comments: each `#` and the rest of its line disappear; the
      newline that ends the line stays. */
  function RemoveComments(s: string): (r: string)
    ensures |r| <= |s|
    ensures '#' !in r
    decreases |s|
  {
    if s == [] then []
    else if s[0] == '#' then RemoveComments(SkipComment(s[1..]))
    else [s[0]] + RemoveComments(s[1..])
  }

  /** Reference definition for one line: the characters before its first `#`. */
  function UpToHash(line: string): string
  {
    if line == [] || line[0] == '#' then [] else [line[0]] + UpToHash(line[1..])
  }

  /** On a single line (no newline), remove_comments keeps exactly the part
      before the first `#`. */
  lemma {:induction false} RemoveCommentsLine(line: string)
    requires '\n' !in line
    ensures RemoveComments(line) == UpToHash(line)
  {
    if line != [] {
      if line[0] == '#' {
        SkipCommentToEnd(line[1..]);
      } else {
        RemoveCommentsLine(line[1..]);
      }
    }
  }

  lemma {:induction false} SkipCommentToEnd(s: string)
    requires '\n' !in s
    ensures SkipComment(s) == []
  {
    if s != [] {
      SkipCommentToEnd(s[1..]);
    }
  }

  lemma {:induction false} SkipCommentAppend(a: string, b: string)
    requires '\n' !in a
    ensures SkipComment(a + ['\n'] + b) == ['\n'] + b
  {
    if a != [] {
      assert (a + ['\n'] + b)[1..] == a[1..] + ['\n'] + b;
      SkipCommentAppend(a[1..], b);
    }
  }

  /** A newline is kept as it is. */
  lemma NewlineKept(b: string)
    ensures RemoveComments(['\n'] + b) == ['\n'] + RemoveComments(b)
  {
    assert (['\n'] + b)[1..] == b;
  }

  /** A line that starts with `#` vanishes up to its newline. */
  lemma {:induction false} CommentLineDropped(a: string, b: string)
    requires a != [] && a[0] == '#' && '\n' !in a
    ensures RemoveComments(a + ['\n'] + b) == ['\n'] + RemoveComments(b)
    ensures RemoveComments(a) == []
  {
    var x := a + ['\n'] + b;
    assert x[0] == '#' && x[1..] == a[1..] + ['\n'] + b;
    SkipCommentAppend(a[1..], b);
    SkipCommentToEnd(a[1..]);
    NewlineKept(b);
  }

  /** Lines are filtered independently: the newline between two lines is
      kept and no comment reaches past it. */
  lemma {:induction false} RemoveCommentsLines(a: string, b: string)
    requires '\n' !in a
    ensures RemoveComments(a + ['\n'] + b) == RemoveComments(a) + ['\n'] + RemoveComments(b)
    decreases |a|
  {
    if a == [] {
      assert a + ['\n'] + b == ['\n'] + b;
      NewlineKept(b);
    } else if a[0] == '#' {
      CommentLineDropped(a, b);
    } else {
      var x := a + ['\n'] + b;
      assert x[0] == a[0] && x[1..] == a[1..] + ['\n'] + b;
      RemoveCommentsLines(a[1..], b);
    }
  }

  /** A text without `#` passes through unchanged. */
  lemma {:induction false} RemoveCommentsKeepsPlainText(s: string)
    requires '#' !in s
    ensures RemoveComments(s) == s
  {
    if s != [] {
      RemoveCommentsKeepsPlainText(s[1..]);
    }
  }

  /** Removing comments twice is removing them once. */
  lemma RemoveCommentsIdempotent(s: string)
    ensures RemoveComments(RemoveComments(s)) == RemoveComments(s)
  {
    RemoveCommentsKeepsPlainText(RemoveComments(s));
  }
}
