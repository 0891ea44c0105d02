/** Properties of the scanner of MyLisp/Lexer.cpp, stated about the reference
    functions that the methods of Lexer.Lexer are proved to compute. */
module LexerProperties {
  import opened Chars
  import opened Lexer

  /** A whitespace character never produces a token: scanning goes on from the
      next character, with the cursor moved as handleWhitespace moves it. */
  lemma WhitespaceIsSkipped(input: string, p: Position)
    requires p.index < |input| && IsSpace(input[p.index])
    ensures NextToken(input, p) == NextToken(input, Whitespace(input, p))
  {
  }

  /** A ';' comment never produces a token: scanning goes on after the newline
      that ends it (or at the end of the input). */
  lemma CommentIsSkipped(input: string, p: Position)
    requires p.index < |input| && input[p.index] == ';'
    ensures NextToken(input, p) == NextToken(input, SkipComment(input, p))
    ensures SkipComment(input, p).index < |input| ==> SkipComment(input, p).line == p.line + 1
  {
  }

  /** '(' and ')' give OPEN_PAREN and CLOSE_PAREN, and any character that starts
      no token gives ERROR "Unknown character"; in each case the token is that
      one character, it carries the position before it, and exactly one
      character is consumed. */
  lemma SingleCharacterTokens(input: string, p: Position)
    requires var q := SkipTrivia(input, p);
      q.index < |input| &&
      var c := input[q.index];
      !(IsDigit(c) || IsSign(c) || IsAlpha(c) || c == '_' || c == '"')
    ensures var q := SkipTrivia(input, p);
      var c := input[q.index];
      var kind := if c == '(' then OpenParen else if c == ')' then CloseParen else Error;
      var message := if c == '(' || c == ')' then "" else "Unknown character";
      NextToken(input, p) == (Emit(Token(kind, [c], q.line, q.column, message)), Position(q.index + 1, q.line, q.column + 1))
  {
    var q := SkipTrivia(input, p);
    var c := input[q.index];
    assert input[q.index..q.index + 1] == [c];
    assert NextToken(input, p) == Dispatch(input, q);
    if c == '(' {
      assert Dispatch(input, q) == OneCharToken(input, OpenParen, q);
    } else if c == ')' {
      assert Dispatch(input, q) == OneCharToken(input, CloseParen, q);
    } else {
      assert Dispatch(input, q) == ErrorToken(input, "Unknown character", q);
    }
  }

  /** One run of the number loop takes at most one '.', and its flag records
      whether it took one. */
  lemma {:induction false} NumberLoopDots(input: string, p: Position, hasDecimal: bool, hasExponent: bool)
    requires p.index <= |input|
    ensures var r := NumberLoop(input, p, hasDecimal, hasExponent);
      r.NumberEnd? ==>
        && CountWhere(input, p.index, r.end.index, IsDot) + (if hasDecimal then 1 else 0) <= 1
        && r.hasDecimal == (hasDecimal || CountWhere(input, p.index, r.end.index, IsDot) > 0)
    decreases |input| - p.index
  {
    var r := NumberLoop(input, p, hasDecimal, hasExponent);
    if p.index == |input| || !r.NumberEnd? {
      return;
    }
    var c := input[p.index];
    if c == '.' && !hasDecimal {
      NumberLoopDots(input, Step(p), true, hasExponent);
    } else if IsExponentMarker(c) && !hasExponent {
      var q := Step(p);
      var q' := SkipExponentMarker(input, p);
      NumberLoopDots(input, q', hasDecimal, true);
      assert CountWhere(input, q.index, r.end.index, IsDot) == CountWhere(input, q'.index, r.end.index, IsDot);
    } else if IsDigit(c) {
      NumberLoopDots(input, Step(p), hasDecimal, hasExponent);
    }
  }

  /** One run of the number loop takes at most one exponent marker, and its
      flag records whether it took one. */
  lemma {:induction false} NumberLoopExponents(input: string, p: Position, hasDecimal: bool, hasExponent: bool)
    requires p.index <= |input|
    ensures var r := NumberLoop(input, p, hasDecimal, hasExponent);
      r.NumberEnd? ==>
        && CountWhere(input, p.index, r.end.index, IsExponentMarker) + (if hasExponent then 1 else 0) <= 1
        && r.hasExponent == (hasExponent || CountWhere(input, p.index, r.end.index, IsExponentMarker) > 0)
    decreases |input| - p.index
  {
    var r := NumberLoop(input, p, hasDecimal, hasExponent);
    if p.index == |input| || !r.NumberEnd? {
      return;
    }
    var c := input[p.index];
    if c == '.' && !hasDecimal {
      NumberLoopExponents(input, Step(p), true, hasExponent);
    } else if IsExponentMarker(c) && !hasExponent {
      var q := Step(p);
      var q' := SkipExponentMarker(input, p);
      NumberLoopExponents(input, q', hasDecimal, true);
      assert CountWhere(input, q.index, r.end.index, IsExponentMarker)
          == CountWhere(input, q'.index, r.end.index, IsExponentMarker);
    } else if IsDigit(c) {
      NumberLoopExponents(input, Step(p), hasDecimal, hasExponent);
    }
  }

  /** The number loop stops only at a character it cannot take: a non-digit
      other than '.' and 'e'/'E', or a second '.' or exponent marker. */
  lemma {:induction false} NumberLoopStops(input: string, p: Position, hasDecimal: bool, hasExponent: bool)
    requires p.index <= |input|
    ensures var r := NumberLoop(input, p, hasDecimal, hasExponent);
      r.NumberEnd? && r.end.index < |input| ==>
        var c := input[r.end.index];
        (!IsDigit(c) && !IsDot(c) && !IsExponentMarker(c)) || (IsDot(c) && r.hasDecimal) || (IsExponentMarker(c) && r.hasExponent)
    decreases |input| - p.index
  {
    if p.index == |input| {
      return;
    }
    var c := input[p.index];
    if c == '.' && !hasDecimal {
      NumberLoopStops(input, Step(p), true, hasExponent);
    } else if IsExponentMarker(c) && !hasExponent {
      var q := Step(p);
      var q' := SkipExponentMarker(input, p);
      if q'.index < |input| && IsDigit(input[q'.index]) {
        NumberLoopStops(input, q', hasDecimal, true);
      }
    } else if IsDigit(c) {
      NumberLoopStops(input, Step(p), hasDecimal, hasExponent);
    }
  }

  /** The number loop fails only on an exponent marker, possibly followed by a
      sign, that no digit follows. */
  lemma {:induction false} NumberLoopBadExponent(input: string, p: Position, hasDecimal: bool, hasExponent: bool)
    requires p.index <= |input|
    ensures var r := NumberLoop(input, p, hasDecimal, hasExponent);
      r.BadExponent? ==>
        && !hasExponent
        && (r.at.index == |input| || !IsDigit(input[r.at.index]))
        && (IsExponentMarker(input[r.at.index - 1])
            || (IsSign(input[r.at.index - 1]) && r.at.index >= 2 && IsExponentMarker(input[r.at.index - 2])))
    decreases |input| - p.index
  {
    if p.index == |input| {
      return;
    }
    var c := input[p.index];
    if c == '.' && !hasDecimal {
      NumberLoopBadExponent(input, Step(p), true, hasExponent);
    } else if IsExponentMarker(c) && !hasExponent {
      var q := Step(p);
      var q' := SkipExponentMarker(input, p);
      if q'.index < |input| && IsDigit(input[q'.index]) {
        NumberLoopBadExponent(input, q', hasDecimal, true);
      }
    } else if IsDigit(c) {
      NumberLoopBadExponent(input, Step(p), hasDecimal, hasExponent);
    }
  }

  /** A number token is FLOAT exactly when its text holds a '.' or an exponent
      marker, and INTEGER otherwise; it holds at most one of each; its text is
      exactly input[start..index) for the cursor it leaves behind. */
  lemma NumberTokenKind(input: string, p: Position)
    requires p.index < |input| && (IsDigit(input[p.index]) || IsSign(input[p.index]))
    ensures var (s, e) := ScanNumber(input, p);
      s.Emit? && s.token.kind != Error ==>
        && p.index < e.index <= |input|
        && s.token.value == input[p.index..e.index]
        && CountWhere(input, p.index, e.index, IsDot) <= 1
        && CountWhere(input, p.index, e.index, IsExponentMarker) <= 1
        && (s.token.kind == Float <==>
              CountWhere(input, p.index, e.index, IsDot) + CountWhere(input, p.index, e.index, IsExponentMarker) > 0)
        && (s.token.kind == Integer <==>
              CountWhere(input, p.index, e.index, IsDot) + CountWhere(input, p.index, e.index, IsExponentMarker) == 0)
  {
    var q := if IsSign(input[p.index]) then Step(p) else p;
    NumberLoopDots(input, q, false, false);
    NumberLoopExponents(input, q, false, false);
    var r := NumberLoop(input, q, false, false);
    if r.NumberEnd? {
      var e := r.end;
      assert ScanNumber(input, p).1 == e;
      if q != p {
        assert CountWhere(input, p.index, e.index, IsDot) == CountWhere(input, q.index, e.index, IsDot);
        assert CountWhere(input, p.index, e.index, IsExponentMarker)
            == CountWhere(input, q.index, e.index, IsExponentMarker);
      }
    }
  }

  /** An exponent marker (after an optional sign) that no digit follows makes
      the number an ERROR token "Invalid scientific notation". */
  lemma BadExponentIsError(input: string, p: Position)
    requires p.index < |input| && (IsDigit(input[p.index]) || IsSign(input[p.index]))
    ensures var (s, e) := ScanNumber(input, p);
      s.Emit? && s.token.kind == Error ==>
        && s.token.error == "Invalid scientific notation"
        && var at := e.index - 1;
           p.index < at <= |input|
           && (at == |input| || !IsDigit(input[at]))
           && (IsExponentMarker(input[at - 1]) || (IsSign(input[at - 1]) && IsExponentMarker(input[at - 2])))
  {
    var q := if IsSign(input[p.index]) then Step(p) else p;
    NumberLoopBadExponent(input, q, false, false);
  }

  /** A '+' or '-' that no digit, '.' or exponent marker follows is an INTEGER
      token whose text is just the sign. */
  lemma LoneSignIsInteger(input: string, p: Position)
    requires p.index < |input| && IsSign(input[p.index])
    requires p.index + 1 == |input|
          || (var c := input[p.index + 1]; !IsDigit(c) && !IsDot(c) && !IsExponentMarker(c))
    ensures ScanNumber(input, p) == (Emit(Token(Integer, [input[p.index]], p.line, p.column + 1, "")), Step(p))
  {
    assert input[p.index..p.index + 1] == [input[p.index]];
  }

  /** An identifier token is the longest run of identifier characters; it is
      BOOL_TRUE exactly for "true", BOOL_FALSE exactly for "false", and SYMBOL
      otherwise; it carries the position reached at its end. */
  lemma IdentifierToken(input: string, p: Position)
    requires p.index < |input| && (IsAlpha(input[p.index]) || input[p.index] == '_')
    ensures var (s, e) := ScanAlpha(input, p);
      && s.Emit?
      && p.index < e.index <= |input|
      && s.token.value == input[p.index..e.index]
      && (forall k :: p.index <= k < e.index ==> IsIdentChar(input[k]))
      && (e.index == |input| || !IsIdentChar(input[e.index]))
      && (s.token.kind == BoolTrue <==> s.token.value == "true")
      && (s.token.kind == BoolFalse <==> s.token.value == "false")
      && (s.token.kind == Symbol <==> s.token.value != "true" && s.token.value != "false")
      && s.token.line == e.line == p.line && s.token.column == e.column == p.column + (e.index - p.index)
  {
  }

  /** A string token's text runs from the opening quote through the closing one
      and holds no other quote; at the end of the input before a closing
      quote the result is ERROR "Unterminated string". */
  lemma StringToken(input: string, p: Position)
    requires p.index < |input| && input[p.index] == '"'
    ensures var (s, e) := ScanString(input, p);
      && (s.Emit? && s.token.kind == String ==>
            && p.index + 2 <= e.index <= |input|
            && s.token.value == input[p.index..e.index]
            && s.token.value[0] == '"' && s.token.value[|s.token.value| - 1] == '"'
            && forall k :: 0 < k < |s.token.value| - 1 ==> s.token.value[k] != '"')
      && (s.Emit? && s.token.kind == Error ==>
            s.token.error == "Unterminated string" && e.index == |input|
            && forall k :: p.index < k < |input| ==> input[k] != '"')
      && (s.Diverged? <==> exists k :: p.index < k < |input| && input[k] == '\n'
                                && forall j :: p.index < j < k ==> input[j] != '"')
  {
    var r := StringLoop(input, Step(p));
    if r.Closed? {
      var v := input[p.index..r.at.index + 1];
      forall k | 0 < k < |v| - 1 ensures v[k] != '"' {
        assert v[k] == input[p.index + k];
      }
    }
    if !r.Stuck? {
      forall k | p.index < k < |input| && input[k] == '\n'
        ensures exists j :: p.index < j < k && input[j] == '"'
      {
        assert r.at.index < k;
      }
    }
  }

  /** Once the scanning loop of tokenizeString is at a newline, no number of
      further passes moves the index or makes its condition false: the loop
      does not terminate. */
  lemma {:induction false} StringNewlineNeverLeaves(input: string, p: Position, n: nat)
    requires p.index < |input| && input[p.index] == '\n'
    ensures var q := StringLoopRuns(input, p, n);
      q.index == p.index && q.line == p.line + n && StringLoopGuard(input, q)
    decreases n
  {
    if n > 0 {
      StringNewlineNeverLeaves(input, StringLoopBody(input, p), n - 1);
    }
  }

  /** StringLoop gives the cursor the scanning loop of tokenizeString reaches;
      when that is a newline (Stuck), the loop never leaves it. */
  lemma {:induction false} StringLoopIsTheLoop(input: string, p: Position)
    requires p.index <= |input|
    ensures var r := StringLoop(input, p);
      StringLoopRuns(input, p, r.at.index - p.index) == r.at
      && (r.Stuck? <==> StringLoopGuard(input, r.at))
    decreases |input| - p.index
  {
    if p.index < |input| && input[p.index] != '"' && input[p.index] != '\n' {
      StringLoopIsTheLoop(input, Step(p));
    }
  }

  /** At the end of the input GetNextToken returns END_OF_FILE without moving,
      so every later call returns it again. */
  lemma EndOfFileRepeats(input: string, p: Position)
    requires var (s, _) := NextToken(input, p); s.Emit? && s.token.kind == EndOfFile
    ensures NextToken(input, p).1.index >= |input|
    ensures NextToken(input, NextToken(input, p).1) == NextToken(input, p)
  {
  }
}
