/** What the older tokenizer of MyLisp/lexer.cpp promises, stated about its
    reference meaning Scan / PassAt / TokenAt. */
module LegacyLexerProperties {
  import opened Chars
  import opened Wrappers
  import opened LegacyLexer

  /** Whitespace yields no token; a newline moves to column 1 of the next
      line, any other blank to the next column. */
  lemma WhitespaceYieldsNothing(input: string, i: nat, line: int, column: int)
    requires i < |input| && IsSpace(input[i])
    ensures input[i] == '\n' ==> Scan(input, i, line, column) == Scan(input, i + 1, line + 1, 1)
    ensures input[i] != '\n' ==> Scan(input, i, line, column) == Scan(input, i + 1, line, column + 1)
  {
  }

  /** A comment yields no token and scanning resumes after the newline that
      ends it, but that newline is consumed without counting a line: the line
      counter and the column counter are left as they were before the ';'. */
  lemma CommentYieldsNothing(input: string, i: nat, line: int, column: int)
    requires i < |input| && input[i] == ';'
    ensures var j := NewlineFrom(input, i);
      && (forall k :: i <= k < j ==> input[k] != '\n')
      && (j < |input| ==> input[j] == '\n')
      && Scan(input, i, line, column) == Scan(input, j + 1, line, column)
  {
  }

  /** The consequence: the first token after a comment line is reported on
      the comment's line. */
  lemma CommentNewlineNotCounted()
    ensures Scan(";x\n(", 0, 1, 1) == [Token(OpenParen, "(", 1, 1)]
  {
    var input := ";x\n(";
    assert NewlineFrom(input, 0) == 2;
    assert PassAt(input, 0, 1, 1) == Pass(None, 3, 1, 1);
    assert PassAt(input, 3, 1, 1) == Pass(Some(Token(OpenParen, "(", 1, 1)), 4, 1, 2);
  }

  /** Every token records where its pass started; the pass that makes a token
      stays on the same line and moves exactly one column, whatever the
      token's length. */
  lemma TokenPass(input: string, i: nat, line: int, column: int)
    requires i < |input|
    ensures var p := PassAt(input, i, line, column);
      p.emitted.Some? <==> !IsSpace(input[i]) && input[i] != ';'
    ensures var p := PassAt(input, i, line, column);
      p.emitted.Some? ==>
        && p.emitted.value.line == line && p.emitted.value.column == column
        && p.line == line && p.column == column + 1
        && Scan(input, i, line, column) == [p.emitted.value] + Scan(input, p.next, line, column + 1)
  {
  }

  /** On a stretch without blanks and comments, the k-th token is reported at
      column + k of the starting line, however long the tokens before it are. */
  lemma {:induction false} ColumnCountsTokens(input: string, i: nat, line: int, column: int)
    requires forall j :: i <= j < |input| ==> !IsSpace(input[j]) && input[j] != ';'
    ensures var ts := Scan(input, i, line, column);
      forall k :: 0 <= k < |ts| ==> ts[k].line == line && ts[k].column == column + k
    decreases |input| - i
  {
    if i < |input| {
      var p := PassAt(input, i, line, column);
      ColumnCountsTokens(input, p.next, p.line, p.column);
      TokenPass(input, i, line, column);
      var ts := Scan(input, i, line, column);
      var rest := Scan(input, p.next, line, column + 1);
      assert ts == [p.emitted.value] + rest;
      forall k | 0 <= k < |ts|
        ensures ts[k].line == line && ts[k].column == column + k
      {
        if k > 0 {
          assert ts[k] == rest[k - 1];
        }
      }
    }
  }

  /** '(', ')', '\'', '*', '/' and '%' each give a one-character token of
      their own kind. */
  lemma SingleCharacterTokens(input: string, i: nat, line: int, column: int)
    requires i < |input|
    ensures var (t, last) := TokenAt(input, i, line, column);
      && (input[i] == '(' ==> t.kind == OpenParen && t.value == "(" && last == i)
      && (input[i] == ')' ==> t.kind == CloseParen && t.value == ")" && last == i)
      && (input[i] == '\'' ==> t.kind == Quote && t.value == "'" && last == i)
      && (input[i] == '*' ==> t.kind == Star && t.value == "*" && last == i)
      && (input[i] == '/' ==> t.kind == Slash && t.value == "/" && last == i)
      && (input[i] == '%' ==> t.kind == Percent && t.value == "%" && last == i)
  {
  }

  /** '<' and '>' take an '=' after them if there is one; '=' and '!' need
      one, and without it are an invalid character. */
  lemma ComparisonTokens(input: string, i: nat, line: int, column: int)
    requires i < |input|
    ensures var (t, last) := TokenAt(input, i, line, column);
      var eq := i + 1 < |input| && input[i + 1] == '=';
      && (input[i] == '<' ==> if eq then t.kind == LEQ && t.value == "<=" && last == i + 1 else t.kind == LT && last == i)
      && (input[i] == '>' ==> if eq then t.kind == GEQ && t.value == ">=" && last == i + 1 else t.kind == GT && last == i)
      && (input[i] == '=' ==> if eq then t.kind == EQ && t.value == "==" && last == i + 1
                              else t.kind == Error && t.value == "Invalid character: =" && last == i)
      && (input[i] == '!' ==> if eq then t.kind == NEQ && t.value == "!=" && last == i + 1
                              else t.kind == Error && t.value == "Invalid character: !" && last == i)
  {
  }

  /** Once a '.' has been seen, or within one run, the number loop takes at
      most one '.'. */
  lemma {:induction false} NumberRunDots(input: string, k: nat, seenDot: bool)
    requires k <= |input|
    ensures var e := NumberRun(input, k, seenDot);
      && (seenDot ==> forall j :: k <= j < e ==> input[j] != '.')
      && (forall j1, j2 :: k <= j1 < j2 < e && input[j1] == '.' ==> input[j2] != '.')
    decreases |input| - k
  {
    if k < |input| && (IsDigit(input[k]) || (input[k] == '.' && !seenDot)) {
      NumberRunDots(input, k + 1, seenDot || input[k] == '.');
    }
  }

  /** A sign or digit directly followed by a digit starts a NUMBER made of
      digits and at most one '.', as long as possible; otherwise '+' and '-'
      are operators and a digit is a one-digit NUMBER. */
  lemma NumberTokens(input: string, i: nat, line: int, column: int)
    requires i < |input| && (input[i] == '+' || input[i] == '-' || IsDigit(input[i]))
    ensures var (t, last) := TokenAt(input, i, line, column);
      if i + 1 < |input| && IsDigit(input[i + 1]) then
        && t.kind == Number && t.value == input[i..last + 1] && i + 1 <= last
        && (forall j :: i < j <= last ==> IsDigit(input[j]) || input[j] == '.')
        && (forall j1, j2 :: i < j1 < j2 <= last && input[j1] == '.' ==> input[j2] != '.')
        && (last + 1 < |input| ==> !IsDigit(input[last + 1]))
        && (last + 1 < |input| && input[last + 1] == '.' ==> exists j :: i < j <= last && input[j] == '.')
      else
        && last == i
        && (input[i] == '+' ==> t.kind == Plus && t.value == "+")
        && (input[i] == '-' ==> t.kind == Minus && t.value == "-")
        && (IsDigit(input[i]) ==> t.kind == Number && t.value == [input[i]])
  {
    if i + 1 < |input| && IsDigit(input[i + 1]) {
      NumberRunDots(input, i + 1, false);
    }
  }

  /** A string token runs from the opening to the closing quote, both
      included, with no quote in between; without a closing quote the rest of
      the input is consumed and the token is an error. */
  lemma StringTokens(input: string, i: nat, line: int, column: int)
    requires i < |input| && input[i] == '"'
    ensures var (t, last) := TokenAt(input, i, line, column);
      if exists j :: i < j < |input| && input[j] == '"' then
        && t.kind == String && t.value == input[i..last + 1] && i < last
        && input[last] == '"' && forall j :: i < j < last ==> input[j] != '"'
      else
        t.kind == Error && t.value == "Unterminated string" && last == |input| - 1
  {
    var q := QuoteFrom(input, i + 1);
    if q == |input| {
      assert forall j :: i < j < |input| ==> input[j] != '"';
    }
  }

  /** A letter starts a symbol that extends over letters, digits, '-' and
      '_'; any character no rule accepts is an invalid character. */
  lemma SymbolAndInvalidTokens(input: string, i: nat, line: int, column: int)
    requires i < |input|
    ensures var (t, last) := TokenAt(input, i, line, column);
      && (IsAlpha(input[i]) ==>
            && t.kind == Symbol && t.value == input[i..last + 1]
            && (forall j :: i < j <= last ==> IsSymbolChar(input[j]))
            && (last + 1 == |input| || !IsSymbolChar(input[last + 1])))
      && (!IsAlpha(input[i]) && !IsDigit(input[i]) && input[i] !in "()'<>=!+-*/%\"" ==>
            t.kind == Error && t.value == "Invalid character: " + [input[i]] && last == i)
  {
  }
}
