/** The older one-pass tokenizer of MyLisp/lexer.cpp: a single for loop over
    the input with line and column counters, inner loops for numbers, strings
    and symbols, and a token set with comparison and arithmetic operators.

    Scan is the reference meaning of the loop, one pass (PassAt) at a time;
    the method Tokenize is proved to compute it. */
module LegacyLexer {
  import opened Chars
  import opened Wrappers

  datatype TokenType =
    | OpenParen | CloseParen | Quote | Symbol | Number | String
    | LT | GT | EQ | LEQ | GEQ | NEQ
    | Plus | Minus | Star | Slash | Percent
    | Error

  /** A token: kind, text (for ERROR, the message), and the line and column at
      which the pass that made it started. */
  datatype Token = Token(kind: TokenType, value: string, line: int, column: int)

  /** The index of the first newline at or after i, or |input|: where the
      comment loop stops. */
  function NewlineFrom(input: string, i: nat): (j: nat)
    requires i <= |input|
    ensures i <= j <= |input|
    ensures forall k :: i <= k < j ==> input[k] != '\n'
    ensures j == |input| || input[j] == '\n'
    decreases |input| - i
  {
    if i == |input| || input[i] == '\n' then i else NewlineFrom(input, i + 1)
  }

  /** The end of the digits and at most one '.' (only if none was seen
      before) that the number loop appends from index k on. */
  function NumberRun(input: string, k: nat, seenDot: bool): (e: nat)
    requires k <= |input|
    ensures k <= e <= |input|
    ensures forall j :: k <= j < e ==> IsDigit(input[j]) || input[j] == '.'
    ensures e == |input| || (!IsDigit(input[e]) && (input[e] != '.' || seenDot || exists j :: k <= j < e && input[j] == '.'))
    decreases |input| - k
  {
    if k < |input| && (IsDigit(input[k]) || (input[k] == '.' && !seenDot)) then
      NumberRun(input, k + 1, seenDot || input[k] == '.')
    else k
  }

  /** The index of the first '"' at or after k, or |input|. */
  function QuoteFrom(input: string, k: nat): (q: nat)
    requires k <= |input|
    ensures k <= q <= |input|
    ensures forall j :: k <= j < q ==> input[j] != '"'
    ensures q == |input| || input[q] == '"'
    decreases |input| - k
  {
    if k == |input| || input[k] == '"' then k else QuoteFrom(input, k + 1)
  }

  predicate IsSymbolChar(c: char) {
    IsAlnum(c) || c == '-' || c == '_'
  }

  /** The end of the run of alnum, '-' and '_' characters from index k on. */
  function SymbolRun(input: string, k: nat): (e: nat)
    requires k <= |input|
    ensures k <= e <= |input|
    ensures forall j :: k <= j < e ==> IsSymbolChar(input[j])
    ensures e == |input| || !IsSymbolChar(input[e])
    decreases |input| - k
  {
    if k < |input| && IsSymbolChar(input[k]) then SymbolRun(input, k + 1) else k
  }

  /** The token made at index i and the index of its last character. */
  function TokenAt(input: string, i: nat, line: int, column: int): (r: (Token, nat))
    requires i < |input|
    ensures i <= r.1 < |input|
    ensures r.0.line == line && r.0.column == column
  {
    var c := input[i];
    var invalid := Token(Error, "Invalid character: " + [c], line, column);
    var nextIsEq := i + 1 < |input| && input[i + 1] == '=';
    if c == '(' then (Token(OpenParen, "(", line, column), i)
    else if c == ')' then (Token(CloseParen, ")", line, column), i)
    else if c == '\'' then (Token(Quote, "'", line, column), i)
    else if c == '<' then (if nextIsEq then (Token(LEQ, "<=", line, column), i + 1) else (Token(LT, "<", line, column), i))
    else if c == '>' then (if nextIsEq then (Token(GEQ, ">=", line, column), i + 1) else (Token(GT, ">", line, column), i))
    else if c == '=' then (if nextIsEq then (Token(EQ, "==", line, column), i + 1) else (invalid, i))
    else if c == '!' then (if nextIsEq then (Token(NEQ, "!=", line, column), i + 1) else (invalid, i))
    else if c == '+' || c == '-' || IsDigit(c) then
      if i + 1 < |input| && IsDigit(input[i + 1]) then
        var e := NumberRun(input, i + 1, false);
        (Token(Number, input[i..e], line, column), e - 1)
      else if c == '+' then (Token(Plus, "+", line, column), i)
      else if c == '-' then (Token(Minus, "-", line, column), i)
      else (Token(Number, [c], line, column), i)
    else if c == '*' then (Token(Star, "*", line, column), i)
    else if c == '/' then (Token(Slash, "/", line, column), i)
    else if c == '%' then (Token(Percent, "%", line, column), i)
    else if c == '"' then
      var q := QuoteFrom(input, i + 1);
      if q < |input| then (Token(String, input[i..q + 1], line, column), q)
      else (Token(Error, "Unterminated string", line, column), |input| - 1)
    else if IsAlpha(c) then
      var e := SymbolRun(input, i + 1);
      (Token(Symbol, input[i..e], line, column), e - 1)
    else (invalid, i)
  }

  /** One pass of the for loop, including its `++i`: what it emits and the
      index, line and column the next pass starts from. */
  datatype Pass = Pass(emitted: Option<Token>, next: nat, line: int, column: int)

  function PassAt(input: string, i: nat, line: int, column: int): (p: Pass)
    requires i < |input|
    ensures i < p.next <= |input| + 1
  {
    var c := input[i];
    if IsSpace(c) then
      if c == '\n' then Pass(None, i + 1, line + 1, 1) else Pass(None, i + 1, line, column + 1)
    else if c == ';' then
      Pass(None, NewlineFrom(input, i) + 1, line, column)
    else
      var (t, last) := TokenAt(input, i, line, column);
      Pass(Some(t), last + 1, line, column + 1)
  }

  /** The tokens the loop emits from index i on, with the given counters. */
  function Scan(input: string, i: nat, line: int, column: int): seq<Token>
    decreases |input| - i
  {
    if i >= |input| then []
    else
      var p := PassAt(input, i, line, column);
      var rest := Scan(input, p.next, p.line, p.column);
      match p.emitted
      case None => rest
      case Some(t) => [t] + rest
  }

  /** The number branch: from a sign or digit followed by a digit, append
      digits and at most one '.'. Returns the text and its last index. */
  method ReadNumber(input: string, start: nat) returns (value: string, i: nat)
    requires start + 1 < |input|
    ensures var e := NumberRun(input, start + 1, false); value == input[start..e] && i == e - 1
  {
    i := start;
    value := [input[start]];
    var numDecimals: nat := 0;
    while i + 1 < |input|
      invariant start <= i < |input|
      invariant value == input[start..i + 1]
      invariant numDecimals <= 1
      invariant NumberRun(input, i + 1, numDecimals > 0) == NumberRun(input, start + 1, false)
      decreases |input| - i
    {
      assert input[start..i + 2] == value + [input[i + 1]];
      if IsDigit(input[i + 1]) {
        i := i + 1;
        value := value + [input[i]];
      } else if input[i + 1] == '.' {
        if numDecimals == 0 {
          numDecimals := numDecimals + 1;
          i := i + 1;
          value := value + [input[i]];
        } else {
          break;
        }
      } else {
        break;
      }
    }
  }

  /** The string branch: append up to and including the closing quote, or
      report an unterminated string with the index at the last character. */
  method ReadString(input: string, start: nat, line: int, column: int) returns (t: Token, i: nat)
    requires start < |input| && input[start] == '"'
    ensures (t, i) == TokenAt(input, start, line, column)
  {
    i := start;
    var value := [input[start]];
    while i + 1 < |input| && input[i + 1] != '"'
      invariant start <= i < |input|
      invariant value == input[start..i + 1]
      invariant QuoteFrom(input, i + 1) == QuoteFrom(input, start + 1)
      decreases |input| - i
    {
      assert input[start..i + 2] == value + [input[i + 1]];
      i := i + 1;
      value := value + [input[i]];
    }
    assert QuoteFrom(input, start + 1) == if i + 1 < |input| then i + 1 else |input|;
    if i + 1 < |input| {
      i := i + 1;
      value := value + [input[i]];
      assert value == input[start..i + 1];
      t := Token(String, value, line, column);
    } else {
      t := Token(Error, "Unterminated string", line, column);
    }
  }

  /** The symbol branch: append alnum, '-' and '_' characters. */
  method ReadSymbol(input: string, start: nat) returns (value: string, i: nat)
    requires start < |input|
    ensures var e := SymbolRun(input, start + 1); value == input[start..e] && i == e - 1
  {
    i := start;
    value := [input[start]];
    while i + 1 < |input| && IsSymbolChar(input[i + 1])
      invariant start <= i < |input|
      invariant value == input[start..i + 1]
      invariant SymbolRun(input, i + 1) == SymbolRun(input, start + 1)
      decreases |input| - i
    {
      assert input[start..i + 2] == value + [input[i + 1]];
      i := i + 1;
      value := value + [input[i]];
    }
  }

  /** The token-making branches of one pass, from the character at start. */
  method ReadToken(input: string, start: nat, line: int, column: int) returns (t: Token, i: nat)
    requires start < |input|
    ensures (t, i) == TokenAt(input, start, line, column)
  {
    i := start;
    var c := input[i];
    var nextIsEq := i + 1 < |input| && input[i + 1] == '=';
    if c == '(' {
      t := Token(OpenParen, "(", line, column);
    } else if c == ')' {
      t := Token(CloseParen, ")", line, column);
    } else if c == '\'' {
      t := Token(Quote, "'", line, column);
    } else if c == '<' {
      if nextIsEq {
        t := Token(LEQ, "<=", line, column);
        i := i + 1;
      } else {
        t := Token(LT, "<", line, column);
      }
    } else if c == '>' {
      if nextIsEq {
        t := Token(GEQ, ">=", line, column);
        i := i + 1;
      } else {
        t := Token(GT, ">", line, column);
      }
    } else if c == '=' {
      if nextIsEq {
        t := Token(EQ, "==", line, column);
        i := i + 1;
      } else {
        t := Token(Error, "Invalid character: " + [c], line, column);
      }
    } else if c == '!' {
      if nextIsEq {
        t := Token(NEQ, "!=", line, column);
        i := i + 1;
      } else {
        t := Token(Error, "Invalid character: " + [c], line, column);
      }
    } else if c == '+' || c == '-' || IsDigit(c) {
      if i + 1 < |input| && IsDigit(input[i + 1]) {
        var value;
        value, i := ReadNumber(input, start);
        t := Token(Number, value, line, column);
      } else if c == '+' {
        t := Token(Plus, "+", line, column);
      } else if c == '-' {
        t := Token(Minus, "-", line, column);
      } else {
        t := Token(Number, [c], line, column);
      }
    } else if c == '*' {
      t := Token(Star, "*", line, column);
    } else if c == '/' {
      t := Token(Slash, "/", line, column);
    } else if c == '%' {
      t := Token(Percent, "%", line, column);
    } else if c == '"' {
      t, i := ReadString(input, start, line, column);
    } else if IsAlpha(c) {
      var value;
      value, i := ReadSymbol(input, start);
      t := Token(Symbol, value, line, column);
    } else {
      t := Token(Error, "Invalid character: " + [c], line, column);
    }
  }

  /** Lexer::Tokenize */
  method Tokenize(input: string) returns (tokens: seq<Token>)
    ensures tokens == Scan(input, 0, 1, 1)
  {
    tokens := [];
    var line, column := 1, 1;
    var i: nat := 0;
    while i < |input|
      invariant i <= |input| + 1
      invariant tokens + Scan(input, i, line, column) == Scan(input, 0, 1, 1)
      decreases |input| + 1 - i
    {
      ghost var pass := PassAt(input, i, line, column);
      var c := input[i];
      if IsSpace(c) {
        if c == '\n' {
          line := line + 1;
          column := 1;
        } else {
          column := column + 1;
        }
      } else if c == ';' {
        while i < |input| && input[i] != '\n'
          invariant i <= |input|
          invariant NewlineFrom(input, i) == pass.next - 1
          decreases |input| - i
        {
          i := i + 1;
        }
      } else {
        var t;
        t, i := ReadToken(input, i, line, column);
        tokens := tokens + [t];
        column := column + 1;
      }
      assert i + 1 == pass.next && line == pass.line && column == pass.column;
      i := i + 1;
    }
  }
}
