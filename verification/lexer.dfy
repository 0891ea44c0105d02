/** The character scanner of MyLisp/Lexer.cpp: a cursor (index, line, column) over
    the source text that yields one token per GetNextToken call.

    The functions below (NextToken and the scanners it dispatches to) are the
    reference meaning of one call; the class Lexer is the imperative scanner,
    whose methods are proved to compute exactly those functions. */
module Lexer {
  import opened Chars

  datatype TokenType =
    | OpenParen | CloseParen | Symbol | Float | Integer
    | BoolTrue | BoolFalse | String | EndOfFile | Error

  /** A token: its kind, its text, the line and column recorded for it, and an
      error message (empty unless kind == Error). */
  datatype Token = Token(kind: TokenType, value: string, line: int, column: int, error: string)

  /** END_OF_FILE and ERROR end a tokenization. */
  predicate IsTerminal(t: Token) {
    t.kind == EndOfFile || t.kind == Error
  }

  /** The cursor of the scanner: index_, line_ and column_. */
  datatype Position = Position(index: nat, line: int, column: int)

  /** What one call of GetNextToken does: it returns a token, or it never
      returns (a newline inside a string literal, see StringLoop). */
  datatype Scan = Emit(token: Token) | Diverged

  const Start := Position(0, 1, 1)

  /** advance(): one character to the right on the same line. */
  function Step(p: Position): Position {
    Position(p.index + 1, p.line, p.column + 1)
  }

  /** handleWhitespace: a newline starts the next line at column 1; any other
      character moves one column to the right. */
  function Whitespace(input: string, p: Position): (q: Position)
    requires p.index < |input|
    ensures q.index == p.index + 1
    ensures input[p.index] == '\n' ==> q.line == p.line + 1 && q.column == 1
    ensures input[p.index] != '\n' ==> q.line == p.line && q.column == p.column + 1
  {
    if input[p.index] == '\n' then Position(p.index + 1, p.line + 1, 1)
    else Step(p)
  }

  /** The advancing loop of handleComment: it stops at the first newline or at
      the end of the input. */
  function CommentBody(input: string, p: Position): (q: Position)
    requires p.index <= |input|
    ensures p.index <= q.index <= |input|
    ensures q.line == p.line && q.column == p.column + (q.index - p.index)
    ensures forall k :: p.index <= k < q.index ==> input[k] != '\n'
    ensures q.index == |input| || input[q.index] == '\n'
    decreases |input| - p.index
  {
    if p.index == |input| || input[p.index] == '\n' then p
    else CommentBody(input, Step(p))
  }

  /** handleComment: skip to the end of the line, then consume the newline as
      whitespace so that the line count goes up. */
  function SkipComment(input: string, p: Position): (q: Position)
    requires p.index <= |input|
    ensures p.index <= q.index <= |input|
    ensures q.index < |input| ==> q.index > 0 && input[q.index - 1] == '\n'
  {
    var q := CommentBody(input, p);
    if q.index < |input| then Whitespace(input, q) else q
  }

  /** The loop at the head of GetNextToken: whitespace and comments are passed
      over until a significant character or the end of the input. */
  function SkipTrivia(input: string, p: Position): (q: Position)
    ensures q.index >= p.index
    ensures p.index <= |input| ==> q.index <= |input|
    ensures q.index < |input| ==> !IsSpace(input[q.index]) && input[q.index] != ';'
    ensures p.index >= |input| ==> q == p
    decreases |input| - p.index
  {
    if p.index >= |input| then p
    else if IsSpace(input[p.index]) then SkipTrivia(input, Whitespace(input, p))
    else if input[p.index] == ';' then SkipTrivia(input, SkipComment(input, p))
    else p
  }

  /** makeToken: a one-character token at the current position; the cursor
      then moves one character on. */
  function OneCharToken(input: string, kind: TokenType, p: Position): (Scan, Position)
    requires p.index < |input|
  {
    (Emit(Token(kind, input[p.index..p.index + 1], p.line, p.column, "")), Step(p))
  }

  /** makeErrorToken: like makeToken, with kind ERROR and a message. At the end
      of the input the character read is the string's terminating NUL. */
  function ErrorToken(input: string, message: string, p: Position): (Scan, Position)
    requires p.index <= |input|
  {
    var text := if p.index < |input| then input[p.index..p.index + 1] else "\0";
    (Emit(Token(Error, text, p.line, p.column, message)), Step(p))
  }

  /** makeEOFToken: an empty END_OF_FILE token; the cursor does not move. */
  function EOFToken(p: Position): (Scan, Position) {
    (Emit(Token(EndOfFile, "", p.line, p.column, "")), p)
  }

  /** The number of characters of input[lo..hi] that satisfy `isIt`. */
  function CountWhere(input: string, lo: nat, hi: nat, isIt: char -> bool): nat
    requires lo <= hi <= |input|
    decreases hi - lo
  {
    if lo == hi then 0 else (if isIt(input[lo]) then 1 else 0) + CountWhere(input, lo + 1, hi, isIt)
  }

  predicate IsDot(c: char) { c == '.' }
  predicate IsExponentMarker(c: char) { c == 'e' || c == 'E' }
  predicate IsSign(c: char) { c == '+' || c == '-' }

  /** How the scanning loop of handleNumber ends: at the first character it does
      not accept, with the two flags, or on an exponent marker (and optional
      sign) that no digit follows. */
  datatype NumberScan = NumberEnd(end: Position, hasDecimal: bool, hasExponent: bool) | BadExponent(at: Position)

  /** q lies on p's line, at or to the right of p, each character one column. */
  predicate Ahead(p: Position, q: Position) {
    p.index <= q.index && q.line == p.line && q.column == p.column + (q.index - p.index)
  }

  /** The cursor after an exponent marker at p and the optional sign after it. */
  function SkipExponentMarker(input: string, p: Position): (q: Position)
    requires p.index < |input|
    ensures p.index < q.index <= |input| && Ahead(p, q)
  {
    var q := Step(p);
    if q.index < |input| && IsSign(input[q.index]) then Step(q) else q
  }

  /** The scanning loop of handleNumber, from cursor p with the two flags. It
      stops at the end of the input, at a character it cannot accept, or on a
      bad exponent. */
  function NumberLoop(input: string, p: Position, hasDecimal: bool, hasExponent: bool): (r: NumberScan)
    requires p.index <= |input|
    ensures r.NumberEnd? ==> r.end.index <= |input| && Ahead(p, r.end)
    ensures r.BadExponent? ==> p.index < r.at.index <= |input| && Ahead(p, r.at)
    decreases |input| - p.index
  {
    if p.index == |input| then NumberEnd(p, hasDecimal, hasExponent)
    else
      var c := input[p.index];
      if c == '.' && !hasDecimal then
        NumberLoop(input, Step(p), true, hasExponent)
      else if IsExponentMarker(c) && !hasExponent then
        var q := SkipExponentMarker(input, p);
        if q.index >= |input| || !IsDigit(input[q.index]) then BadExponent(q)
        else NumberLoop(input, q, hasDecimal, true)
      else if !IsDigit(c) then NumberEnd(p, hasDecimal, hasExponent)
      else NumberLoop(input, Step(p), hasDecimal, hasExponent)
  }

  /** handleNumber, with tokenizeFloat and tokenizeInteger: an optional sign,
      then the scanning loop. The token's text is input[start..index) and it
      carries the position reached at its end. */
  function ScanNumber(input: string, p: Position): (Scan, Position)
    requires p.index < |input| && (IsDigit(input[p.index]) || IsSign(input[p.index]))
  {
    var q := if IsSign(input[p.index]) then Step(p) else p;
    match NumberLoop(input, q, false, false)
    case BadExponent(at) => ErrorToken(input, "Invalid scientific notation", at)
    case NumberEnd(e, hasDecimal, hasExponent) =>
      var kind := if hasDecimal || hasExponent then Float else Integer;
      (Emit(Token(kind, input[p.index..e.index], e.line, e.column, "")), e)
  }

  /** Characters that continue an identifier in handleAlpha. */
  predicate IsIdentChar(c: char) {
    IsAlnum(c) || c == '_' || c == '-' || c == '?'
  }

  /** The end of the longest run of identifier characters starting at i. */
  function IdentEnd(input: string, i: nat): (j: nat)
    requires i <= |input|
    ensures i <= j <= |input|
    ensures forall k :: i <= k < j ==> IsIdentChar(input[k])
    ensures j == |input| || !IsIdentChar(input[j])
    decreases |input| - i
  {
    if i == |input| || !IsIdentChar(input[i]) then i else IdentEnd(input, i + 1)
  }

  /** handleAlpha: the longest identifier run; exactly "true" and "false" are
      the boolean tokens. The token carries the position reached at its end. */
  function ScanAlpha(input: string, p: Position): (Scan, Position)
    requires p.index < |input|
  {
    var j := IdentEnd(input, p.index);
    var text := input[p.index..j];
    var e := Position(j, p.line, p.column + (j - p.index));
    var kind := if text == "true" then BoolTrue else if text == "false" then BoolFalse else Symbol;
    (Emit(Token(kind, text, e.line, e.column, "")), e)
  }

  /** How the scanning loop of tokenizeString ends: on the closing quote, at
      the end of the input, or stuck on a newline. */
  datatype StringScan = Closed(at: Position) | Unterminated(at: Position) | Stuck(at: Position)

  /** The scanning loop of tokenizeString from cursor p. A newline inside the
      literal bumps the line counter without moving the index, so the loop
      never leaves it again (StringNewlineNeverLeaves): that outcome is Stuck. */
  function StringLoop(input: string, p: Position): (r: StringScan)
    requires p.index <= |input|
    ensures p.index <= r.at.index <= |input|
    ensures r.at.line == p.line && r.at.column == p.column + (r.at.index - p.index)
    ensures forall k :: p.index <= k < r.at.index ==> input[k] != '"' && input[k] != '\n'
    ensures r.Closed? <==> r.at.index < |input| && input[r.at.index] == '"'
    ensures r.Stuck? <==> r.at.index < |input| && input[r.at.index] == '\n'
    ensures r.Unterminated? <==> r.at.index == |input|
    decreases |input| - p.index
  {
    if p.index == |input| then Unterminated(p)
    else if input[p.index] == '"' then Closed(p)
    else if input[p.index] == '\n' then Stuck(p)
    else StringLoop(input, Step(p))
  }

  /** One pass of the body of the scanning loop of tokenizeString, as the
      source writes it: a newline bumps line_ and sets column_ to 0 without
      moving index_; any other character is passed with advance(). */
  function StringLoopBody(input: string, p: Position): Position
    requires p.index < |input|
  {
    if input[p.index] == '\n' then Position(p.index, p.line + 1, 0) else Step(p)
  }

  /** The condition of that loop. */
  predicate StringLoopGuard(input: string, p: Position) {
    p.index < |input| && input[p.index] != '"'
  }

  /** The cursor after n passes of that loop (fewer if its condition fails). */
  function StringLoopRuns(input: string, p: Position, n: nat): Position
    decreases n
  {
    if n == 0 || !StringLoopGuard(input, p) then p
    else StringLoopRuns(input, StringLoopBody(input, p), n - 1)
  }

  /** tokenizeString: the token's text runs from the opening quote through the
      closing one; without a closing quote the result is an ERROR token. */
  function ScanString(input: string, p: Position): (Scan, Position)
    requires p.index < |input| && input[p.index] == '"'
  {
    match StringLoop(input, Step(p))
    case Closed(q) =>
      var e := Step(q);
      (Emit(Token(String, input[p.index..e.index], e.line, e.column, "")), e)
    case Unterminated(q) => (Emit(Token(Error, "", q.line, q.column, "Unterminated string")), q)
    case Stuck(q) => (Diverged, q)
  }

  /** The dispatch of GetNextToken once whitespace and comments are skipped. */
  function Dispatch(input: string, p: Position): (r: (Scan, Position))
    ensures r.0.Emit? && !IsTerminal(r.0.token) ==> p.index < r.1.index <= |input|
    ensures p.index <= |input| ==> p.index <= r.1.index <= |input| + 1
  {
    if p.index >= |input| then EOFToken(p)
    else
      var c := input[p.index];
      if c == '(' then OneCharToken(input, OpenParen, p)
      else if c == ')' then OneCharToken(input, CloseParen, p)
      else if IsDigit(c) || IsSign(c) then ScanNumber(input, p)
      else if IsAlpha(c) || c == '_' then ScanAlpha(input, p)
      else if c == '"' then ScanString(input, p)
      else ErrorToken(input, "Unknown character", p)
  }

  /** One call of GetNextToken from cursor p: the scan and the new cursor. Every
      token that does not end the tokenization consumes at least one
      character and leaves the cursor inside the input. */
  function NextToken(input: string, p: Position): (r: (Scan, Position))
    ensures r.0.Emit? && !IsTerminal(r.0.token) ==> p.index < r.1.index <= |input|
    ensures p.index <= |input| ==> p.index <= r.1.index <= |input| + 1
  {
    Dispatch(input, SkipTrivia(input, p))
  }

  /** The outcome of Tokenize: every token up to and including the first
      END_OF_FILE or ERROR, or the tokens returned before a call that never
      returns. */
  datatype Tokenization = Finished(tokens: seq<Token>) | Hangs(before: seq<Token>)

  function Prepend(t: Token, r: Tokenization): Tokenization {
    match r
    case Finished(ts) => Finished([t] + ts)
    case Hangs(ts) => Hangs([t] + ts)
  }

  function PrependAll(ts: seq<Token>, r: Tokenization): Tokenization {
    match r
    case Finished(us) => Finished(ts + us)
    case Hangs(us) => Hangs(ts + us)
  }

  /** Prepending a prefix and then one more token is prepending their
      concatenation. */
  lemma PrependAllSnoc(ts: seq<Token>, t: Token, r: Tokenization)
    ensures PrependAll(ts, Prepend(t, r)) == PrependAll(ts + [t], r)
  {
    match r
    case Finished(us) => assert ts + ([t] + us) == (ts + [t]) + us;
    case Hangs(us) => assert ts + ([t] + us) == (ts + [t]) + us;
  }

  /** The tokens GetNextToken returns from cursor p on, up to the first
      terminal one. */
  function TokensFrom(input: string, p: Position): (r: Tokenization)
    requires p.index <= |input|
    ensures r.Finished? ==>
      && |r.tokens| > 0 && IsTerminal(r.tokens[|r.tokens| - 1])
      && forall i :: 0 <= i < |r.tokens| - 1 ==> !IsTerminal(r.tokens[i])
    ensures r.Hangs? ==> forall i :: 0 <= i < |r.before| ==> !IsTerminal(r.before[i])
    decreases |input| - p.index
  {
    var (s, q) := NextToken(input, p);
    match s
    case Diverged => Hangs([])
    case Emit(t) =>
      if IsTerminal(t) then Finished([t])
      else Prepend(t, TokensFrom(input, q))
  }

  /** One step of TokensFrom, in terms of the scan NextToken gives. */
  lemma TokensFromStep(input: string, p: Position, s: Scan, q: Position)
    requires p.index <= |input| && (s, q) == NextToken(input, p)
    ensures s.Diverged? ==> TokensFrom(input, p) == Hangs([])
    ensures s.Emit? && IsTerminal(s.token) ==> TokensFrom(input, p) == Finished([s.token])
    ensures s.Emit? && !IsTerminal(s.token) ==>
      p.index < q.index <= |input| && TokensFrom(input, p) == Prepend(s.token, TokensFrom(input, q))
  {
  }

  /** One round of Tokenize's loop: what the tokens collected so far and
      the scan of the next call make of the whole tokenization. */
  lemma TokenizeStep(input: string, whole: Tokenization, tokens: seq<Token>, p: Position, s: Scan, q: Position)
    requires p.index <= |input| && (s, q) == NextToken(input, p)
    requires whole == PrependAll(tokens, TokensFrom(input, p))
    ensures s.Diverged? ==> whole == Hangs(tokens)
    ensures s.Emit? && IsTerminal(s.token) ==> whole == Finished(tokens + [s.token])
    ensures s.Emit? && !IsTerminal(s.token) ==>
      && p.index < q.index <= |input|
      && whole == PrependAll(tokens + [s.token], TokensFrom(input, q))
  {
    TokensFromStep(input, p, s, q);
    if s.Diverged? {
      assert tokens + [] == tokens;
    } else if !IsTerminal(s.token) {
      PrependAllSnoc(tokens, s.token, TokensFrom(input, q));
    }
  }

  /** The scanner object: it holds the input and the cursor. */
  class Lexer {
    const input: string
    var index: nat
    var line: int
    var column: int

    function Pos(): Position
      reads this
    {
      Position(index, line, column)
    }

    /** A new scanner starts at index 0, line 1, column 1. */
    constructor (input: string)
      ensures this.input == input && Pos() == Start
    {
      this.input := input;
      index, line, column := 0, 1, 1;
    }

    /** advance */
    method Advance()
      modifies this
      ensures Pos() == Step(old(Pos()))
    {
      index := index + 1;
      column := column + 1;
    }

    method HandleWhitespace()
      requires index < |input|
      modifies this
      ensures Pos() == Whitespace(input, old(Pos()))
    {
      if input[index] == '\n' {
        line := line + 1;
        column := 1;
      } else {
        column := column + 1;
      }
      index := index + 1;
    }

    method HandleComment()
      requires index <= |input|
      modifies this
      ensures Pos() == SkipComment(input, old(Pos()))
    {
      while index < |input| && input[index] != '\n'
        invariant index <= |input|
        invariant CommentBody(input, Pos()) == CommentBody(input, old(Pos()))
        decreases |input| - index
      {
        Advance();
      }
      if index < |input| && input[index] == '\n' {
        HandleWhitespace();
      }
    }

    method MakeToken(kind: TokenType) returns (s: Scan)
      requires index < |input|
      modifies this
      ensures (s, Pos()) == OneCharToken(input, kind, old(Pos()))
    {
      s := Emit(Token(kind, input[index..index + 1], line, column, ""));
      Advance();
    }

    method MakeErrorToken(message: string) returns (s: Scan)
      requires index <= |input|
      modifies this
      ensures (s, Pos()) == ErrorToken(input, message, old(Pos()))
    {
      var text := if index < |input| then input[index..index + 1] else "\0";
      s := Emit(Token(Error, text, line, column, message));
      Advance();
    }

    method MakeEOFToken() returns (s: Scan)
      ensures (s, Pos()) == EOFToken(Pos())
    {
      s := Emit(Token(EndOfFile, "", line, column, ""));
    }

    method TokenizeFloat(start: nat) returns (s: Scan)
      requires start <= index <= |input|
      ensures s == Emit(Token(Float, input[start..index], line, column, ""))
    {
      s := Emit(Token(Float, input[start..index], line, column, ""));
    }

    method TokenizeInteger(start: nat) returns (s: Scan)
      requires start <= index <= |input|
      ensures s == Emit(Token(Integer, input[start..index], line, column, ""))
    {
      s := Emit(Token(Integer, input[start..index], line, column, ""));
    }

    method HandleNumber() returns (s: Scan)
      requires index < |input| && (IsDigit(input[index]) || IsSign(input[index]))
      modifies this
      ensures (s, Pos()) == ScanNumber(input, old(Pos()))
    {
      var start := index;
      var hasDecimal, hasExponent := false, false;
      if input[index] == '+' || input[index] == '-' {
        Advance();
      }
      ghost var q := Pos();
      while index < |input|
        invariant start <= index <= |input|
        invariant NumberLoop(input, Pos(), hasDecimal, hasExponent) == NumberLoop(input, q, false, false)
        decreases |input| - index
      {
        var c := input[index];
        if c == '.' && !hasDecimal {
          hasDecimal := true;
          Advance();
        } else if (c == 'e' || c == 'E') && !hasExponent {
          hasExponent := true;
          Advance();
          if index < |input| && (input[index] == '+' || input[index] == '-') {
            Advance();
          }
          if index >= |input| || !IsDigit(input[index]) {
            s := MakeErrorToken("Invalid scientific notation");
            return;
          }
        } else if !IsDigit(c) {
          break;
        } else {
          Advance();
        }
      }
      if hasDecimal || hasExponent {
        s := TokenizeFloat(start);
      } else {
        s := TokenizeInteger(start);
      }
    }

    method HandleAlpha() returns (s: Scan)
      requires index < |input|
      modifies this
      ensures (s, Pos()) == ScanAlpha(input, old(Pos()))
    {
      var start := index;
      while index < |input| && IsIdentChar(input[index])
        invariant start <= index <= |input|
        invariant IdentEnd(input, index) == IdentEnd(input, start)
        invariant line == old(line) && column == old(column) + (index - start)
        decreases |input| - index
      {
        Advance();
      }
      var value := input[start..index];
      if value == "true" {
        s := Emit(Token(BoolTrue, value, line, column, ""));
      } else if value == "false" {
        s := Emit(Token(BoolFalse, value, line, column, ""));
      } else {
        s := Emit(Token(Symbol, value, line, column, ""));
      }
    }

    method TokenizeString() returns (s: Scan)
      requires index < |input| && input[index] == '"'
      modifies this
      ensures (s, Pos()) == ScanString(input, old(Pos()))
    {
      var start := index;
      Advance();
      ghost var q := Pos();
      while index < |input| && input[index] != '"'
        invariant start < index <= |input|
        invariant StringLoop(input, Pos()) == StringLoop(input, q)
        decreases |input| - index
      {
        if input[index] == '\n' {
          // the source bumps line_ and resets column_ here without moving
          // index_, so this loop never ends
          return Diverged;
        }
        Advance();
      }
      if index < |input| {
        Advance();
        s := Emit(Token(String, input[start..index], line, column, ""));
      } else {
        s := Emit(Token(Error, "", line, column, "Unterminated string"));
      }
    }

    method GetNextToken() returns (s: Scan)
      modifies this
      ensures (s, Pos()) == NextToken(input, old(Pos()))
    {
      while index < |input|
        invariant SkipTrivia(input, Pos()) == SkipTrivia(input, old(Pos()))
        decreases |input| - index
      {
        var c := input[index];
        if IsSpace(c) {
          HandleWhitespace();
          continue;
        }
        if c == ';' {
          HandleComment();
          continue;
        }
        if c == '(' {
          s := MakeToken(OpenParen);
          return;
        }
        if c == ')' {
          s := MakeToken(CloseParen);
          return;
        }
        if IsDigit(c) || c == '+' || c == '-' {
          s := HandleNumber();
          return;
        }
        if IsAlpha(c) || c == '_' {
          s := HandleAlpha();
          return;
        }
        if c == '"' {
          s := TokenizeString();
          return;
        }
        s := MakeErrorToken("Unknown character");
        return;
      }
      s := MakeEOFToken();
    }
  }

  /** Tokenize: call GetNextToken until it returns END_OF_FILE or ERROR, keeping
      that last token. */
  method Tokenize(input: string) returns (r: Tokenization)
    ensures r == TokensFrom(input, Start)
  {
    var lexer := new Lexer(input);
    var tokens: seq<Token> := [];
    while true
      invariant lexer.input == input && lexer.index <= |input|
      invariant TokensFrom(input, Start) == PrependAll(tokens, TokensFrom(input, lexer.Pos()))
      decreases |input| - lexer.index
    {
      ghost var before := lexer.Pos();
      var s := lexer.GetNextToken();
      TokenizeStep(input, TokensFrom(input, Start), tokens, before, s, lexer.Pos());
      if s.Diverged? {
        return Hangs(tokens);
      }
      var t := s.token;
      if IsTerminal(t) {
        return Finished(tokens + [t]);
      }
      tokens := tokens + [t];
    }
  }
}
