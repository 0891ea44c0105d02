/** What the parser of MyLisp/Parser.cpp guarantees, stated over the
    reference parse functions of module Parser (which the Parser class is
    proved to compute): how parentheses are balanced, how the current token
    selects a form, what each form reads, that no function declaration is
    ever nested in another, how integer literals are read, and that a
    stream ending in a lexical error is never accepted. */
module ParserProperties {
  import opened Wrappers
  import opened Chars
  import opened Ast
  import opened Lexer
  import opened Parser
  import TypeSystem

  // ---------------------------------------------------------------------
  // Parentheses

  /** parseExpression unwraps exactly the run of OPEN_PAREN tokens at pos. */
  lemma {:induction false} CountOpensIsTheRun(ts: seq<Token>, pos: nat)
    requires WellEnded(ts) && pos < |ts|
    ensures var n := CountOpens(ts, pos);
      && (forall i :: pos <= i < pos + n ==> ts[i].kind == OpenParen)
      && ts[pos + n].kind != OpenParen
    decreases |ts| - pos
  {
    if ts[pos].kind == OpenParen {
      CountOpensIsTheRun(ts, pos + 1);
    }
  }

  /** The closing loop consumes the run of CLOSE_PAREN tokens at pos, but at
      most n; when it stops short of n, the token it stops at is not one. */
  lemma {:induction false} CloseRunIsTheRun(ts: seq<Token>, pos: nat, n: nat)
    requires WellEnded(ts) && pos < |ts|
    ensures var c := CloseRun(ts, pos, n);
      && (forall i :: pos <= i < pos + c ==> ts[i].kind == CloseParen)
      && (c < n ==> ts[pos + c].kind != CloseParen)
    decreases n
  {
    if n > 0 && ts[pos].kind == CloseParen {
      CloseRunIsTheRun(ts, pos + 1, n - 1);
    }
  }

  /** After a full run of n closing parentheses, one more extends it. */
  lemma {:induction false} CloseRunExtends(ts: seq<Token>, pos: nat, n: nat)
    requires WellEnded(ts) && pos < |ts|
    requires CloseRun(ts, pos, n) == n && ts[pos + n].kind == CloseParen
    ensures CloseRun(ts, pos, n + 1) == n + 1
    decreases n
  {
    if n > 0 {
      CloseRunExtends(ts, pos + 1, n - 1);
    }
  }

  /** parseExpression as one step: the form after the opening run, then
      the closing run. */
  lemma ExpressionSteps(src: Input, pos: nat, inDefine: bool)
    requires WellEnded(src.tokens) && pos < |src.tokens|
    ensures var ts := src.tokens;
      var n := CountOpens(ts, pos);
      var form := FormAt(src, pos + n, n > 0, inDefine);
      ExpressionAt(src, pos, inDefine) ==
        if form.Err? then Err(form.error)
        else if CloseRun(ts, form.value.next, n) < n then
          Err(Syntax(MismatchedParentheses, ts[form.value.next + CloseRun(ts, form.value.next, n)]))
        else Ok(Parsed(form.value.value, form.value.next + n))
  {
  }

  /** parseExpression balances its parentheses: it unwraps the run of n
      opening ones (CountOpensIsTheRun) and parses the form after them; an
      error of the form is passed on, and a parsed form is the expression
      exactly when n closing parentheses follow it, which the expression
      then includes. */
  lemma ExpressionBalancesParentheses(src: Input, pos: nat, inDefine: bool)
    requires WellEnded(src.tokens) && pos < |src.tokens|
    ensures var ts := src.tokens;
      var n := CountOpens(ts, pos);
      var form := FormAt(src, pos + n, n > 0, inDefine);
      var r := ExpressionAt(src, pos, inDefine);
      && (form.Err? ==> r == Err(form.error))
      && (form.Ok? ==> (r.Ok? <==> CloseRun(ts, form.value.next, n) == n))
      && (r.Ok? ==> form.Ok? && r.value == Parsed(form.value.value, form.value.next + n)
                    && forall i :: form.value.next <= i < r.value.next ==> ts[i].kind == CloseParen)
  {
    var n := CountOpens(src.tokens, pos);
    ExpressionSteps(src, pos, inDefine);
    var form := FormAt(src, pos + n, n > 0, inDefine);
    if form.Ok? {
      var e := form.value.next;
      CloseRunIsTheRun(src.tokens, e, n);
      if CloseRun(src.tokens, e, n) == n {
        assert ExpressionAt(src, pos, inDefine) == Ok(Parsed(form.value.value, e + n));
      }
    }
  }

  /** When fewer closing parentheses follow the form than opening ones
      preceded it, parseExpression throws "Mismatched parentheses" at the
      first token after the closing run, which is not a closing one. */
  lemma TooFewClosesAreMismatched(src: Input, pos: nat, inDefine: bool)
    requires WellEnded(src.tokens) && pos < |src.tokens|
    requires var n := CountOpens(src.tokens, pos); FormAt(src, pos + n, n > 0, inDefine).Ok?
    ensures var ts := src.tokens;
      var n := CountOpens(ts, pos);
      var e := FormAt(src, pos + n, n > 0, inDefine).value.next;
      var c := CloseRun(ts, e, n);
      ExpressionAt(src, pos, inDefine).Err? ==>
        && c < n
        && (forall i :: e <= i < e + c ==> ts[i].kind == CloseParen)
        && ts[e + c].kind != CloseParen
        && ExpressionAt(src, pos, inDefine).error == Syntax(MismatchedParentheses, ts[e + c])
  {
    var ts := src.tokens;
    var n := CountOpens(ts, pos);
    var form := FormAt(src, pos + n, n > 0, inDefine).value;
    ExpressionSteps(src, pos, inDefine);
    CloseRunIsTheRun(ts, form.next, n);
  }

  /** One more pair of parentheses around a parenthesised expression
      changes nothing but where the expression ends: `((e))` reads as `(e)`. */
  lemma ExtraParenthesesChangeNothing(src: Input, pos: nat, inDefine: bool)
    requires WellEnded(src.tokens) && pos + 1 < |src.tokens|
    requires src.tokens[pos].kind == OpenParen && src.tokens[pos + 1].kind == OpenParen
    requires ExpressionAt(src, pos + 1, inDefine).Ok?
    requires src.tokens[ExpressionAt(src, pos + 1, inDefine).value.next].kind == CloseParen
    ensures var inner := ExpressionAt(src, pos + 1, inDefine).value;
      ExpressionAt(src, pos, inDefine) == Ok(Parsed(inner.value, inner.next + 1))
  {
    var ts := src.tokens;
    var m := CountOpens(ts, pos + 1);
    assert CountOpens(ts, pos) == m + 1;
    var form := FormAt(src, pos + 1 + m, true, inDefine);
    assert ExpressionAt(src, pos + 1, inDefine) == Ok(Parsed(form.value.value, form.value.next + m));
    CloseRunExtends(ts, form.value.next, m);
  }

  // ---------------------------------------------------------------------
  // Dispatch on the current token

  /** The special forms are recognised by their keyword whether or not
      parentheses were unwrapped before it. */
  lemma KeywordsIgnoreWrapping(src: Input, pos: nat, inDefine: bool)
    requires WellEnded(src.tokens) && pos < |src.tokens| && IsFormKeyword(src.tokens[pos])
    ensures FormAt(src, pos, true, inDefine) == FormAt(src, pos, false, inDefine)
  {
  }

  /** A symbol that is not a keyword and is not wrapped in parentheses is a
      variable reference: one token. */
  lemma BareSymbolIsVariable(src: Input, pos: nat, inDefine: bool)
    requires WellEnded(src.tokens) && pos < |src.tokens|
    requires src.tokens[pos].kind == Symbol && !IsFormKeyword(src.tokens[pos])
    ensures ExpressionAt(src, pos, inDefine) == Ok(Parsed(SymbolNode(src.tokens[pos].value), pos + 1))
  {
    assert CountOpens(src.tokens, pos) == 0;
    assert CloseRun(src.tokens, pos + 1, 0) == 0;
  }

  /** `( name args... )` with a name that is not a keyword is a call of that
      name with the expressions up to the first unmatched closing
      parenthesis as arguments; that parenthesis closes the call. */
  lemma WrappedSymbolIsCall(src: Input, pos: nat, inDefine: bool)
    requires WellEnded(src.tokens) && pos + 1 < |src.tokens|
    requires src.tokens[pos].kind == OpenParen
    requires src.tokens[pos + 1].kind == Symbol && !IsFormKeyword(src.tokens[pos + 1])
    ensures ExpressionAt(src, pos, inDefine) ==
      match UntilClose(src, pos + 2, inDefine)
      case Ok(args) => Ok(Parsed(FunctionCallNode(src.tokens[pos + 1].value, args.value), args.next + 1))
      case Err(e) => Err(e)
  {
    var ts := src.tokens;
    assert CountOpens(ts, pos + 1) == 0;
    assert CountOpens(ts, pos) == 1;
    assert FormAt(src, pos + 1, true, inDefine) == CallAt(src, pos + 1, inDefine);
    var args := UntilClose(src, pos + 2, inDefine);
    if args.Ok? {
      assert CloseRun(ts, args.value.next + 1, 0) == 0;
      assert CloseRun(ts, args.value.next, 1) == 1;
    }
  }

  /** The for, while, define and call forms stop at their closing
      parenthesis and leave it to parseExpression. */
  lemma BodiesStopAtCloseParen(src: Input, pos: nat, inDefine: bool)
    requires WellEnded(src.tokens) && pos < |src.tokens| && src.tokens[pos].kind == Symbol
    ensures ForAt(src, pos, inDefine).Ok? ==> src.tokens[ForAt(src, pos, inDefine).value.next].kind == CloseParen
    ensures WhileAt(src, pos, inDefine).Ok? ==> src.tokens[WhileAt(src, pos, inDefine).value.next].kind == CloseParen
    ensures DefineAt(src, pos, inDefine).Ok? ==> src.tokens[DefineAt(src, pos, inDefine).value.next].kind == CloseParen
    ensures CallAt(src, pos, inDefine).Ok? ==> src.tokens[CallAt(src, pos, inDefine).value.next].kind == CloseParen
  {
  }

  // ---------------------------------------------------------------------
  // What each form reads

  /** An atom is one token: a symbol, a boolean or a string as it is, an
      integer through std::stol and a float through std::stod, whose
      failure is an invalid number; any other token is unexpected. */
  lemma AtomKinds(src: Input, pos: nat)
    requires WellEnded(src.tokens) && pos < |src.tokens|
    ensures var t := src.tokens[pos]; var r := AtomAt(src, pos);
      && (t.kind == Symbol ==> r == Ok(Parsed(SymbolNode(t.value), pos + 1)))
      && (t.kind == String ==> r == Ok(Parsed(StringNode(t.value), pos + 1)))
      && (t.kind == BoolTrue ==> r == Ok(Parsed(BooleanNode(true), pos + 1)))
      && (t.kind == BoolFalse ==> r == Ok(Parsed(BooleanNode(false), pos + 1)))
      && (t.kind == Integer ==>
            r == if Stol(t.value).Some? then Ok(Parsed(IntegerNode(Stol(t.value).value), pos + 1)) else Err(InvalidNumber(t.value)))
      && (t.kind == Float ==>
            r == if src.stod(t.value).Some? then Ok(Parsed(FloatNode(src.stod(t.value).value), pos + 1)) else Err(InvalidNumber(t.value)))
      && (t.kind in {OpenParen, CloseParen, EndOfFile, Error} ==> r == Err(Syntax(UnexpectedToken, t)))
  {
  }

  /** A `( name type )` group is read exactly when its four tokens are an
      opening parenthesis, two symbols and a closing parenthesis; otherwise
      the error names the first token that is wrong. */
  lemma TypedNameShape(ts: seq<Token>, pos: nat, nameMissing: Complaint, typeMissing: Complaint)
    requires WellEnded(ts) && pos < |ts|
    ensures var r := TypedNameAt(ts, pos, nameMissing, typeMissing);
      && (r.Ok? <==> pos + 3 < |ts| && ts[pos].kind == OpenParen && ts[pos + 1].kind == Symbol
                     && ts[pos + 2].kind == Symbol && ts[pos + 3].kind == CloseParen)
      && (ts[pos].kind != OpenParen ==> r == Err(Unexpected(OpenParen, ts[pos])))
      && (ts[pos].kind == OpenParen ==>
            && (ts[pos + 1].kind != Symbol ==> r == Err(Syntax(nameMissing, ts[pos + 1])))
            && (ts[pos + 1].kind == Symbol ==>
                  && (ts[pos + 2].kind != Symbol ==> r == Err(Syntax(typeMissing, ts[pos + 2])))
                  && (ts[pos + 2].kind == Symbol && ts[pos + 3].kind != CloseParen ==>
                        r == Err(Unexpected(CloseParen, ts[pos + 3])))))
  {
  }

  /** `let ( name type ) value` declares name with that type and the value
      expression that follows the group. */
  lemma LetShape(src: Input, pos: nat, inDefine: bool)
    requires WellEnded(src.tokens) && pos < |src.tokens| && src.tokens[pos].kind == Symbol
    ensures var ts := src.tokens; var r := LetAt(src, pos, inDefine);
      r.Ok? <==>
        && pos + 5 < |ts| && ts[pos + 1].kind == OpenParen && ts[pos + 2].kind == Symbol
        && ts[pos + 3].kind == Symbol && ts[pos + 4].kind == CloseParen
        && ExpressionAt(src, pos + 5, inDefine).Ok?
    ensures var ts := src.tokens; var r := LetAt(src, pos, inDefine);
      r.Ok? ==>
        var v := ExpressionAt(src, pos + 5, inDefine).value;
        r.value == Parsed(VariableDeclarationNode(ts[pos + 2].value, ts[pos + 3].value, v.value), v.next)
  {
    TypedNameShape(src.tokens, pos + 1, LetNameExpected, LetTypeExpected);
  }

  /** `set name value` assigns the value expression to name; anything but a
      symbol after the keyword is refused. */
  lemma SetShape(src: Input, pos: nat, inDefine: bool)
    requires WellEnded(src.tokens) && pos < |src.tokens| && src.tokens[pos].kind == Symbol
    ensures var ts := src.tokens; var r := SetAt(src, pos, inDefine);
      && (ts[pos + 1].kind != Symbol ==> r == Err(Syntax(VariableNameExpected, ts[pos + 1])))
      && (ts[pos + 1].kind == Symbol ==>
            r == match ExpressionAt(src, pos + 2, inDefine)
                 case Ok(v) => Ok(Parsed(VariableAssignmentNode(ts[pos + 1].value, v.value), v.next))
                 case Err(e) => Err(e))
  {
  }

  /** The parameter list ends at the first closing parenthesis where a group
      would begin, and it lists the groups' names and types in order. */
  lemma {:induction false} ParamsAreGroups(ts: seq<Token>, pos: nat)
    requires WellEnded(ts) && pos < |ts|
    requires ParamsAt(ts, pos).Ok?
    ensures var ps := ParamsAt(ts, pos).value;
      && ps.next == pos + 4 * |ps.value|
      && forall k :: 0 <= k < |ps.value| ==>
           && ts[pos + 4 * k].kind == OpenParen
           && ps.value[k] == Parameter(ts[pos + 4 * k + 1].value, ts[pos + 4 * k + 2].value)
    decreases |ts| - pos
  {
    if ts[pos].kind != CloseParen {
      var param := TypedNameAt(ts, pos, ParameterNameExpected, ParameterTypeExpected);
      TypedNameShape(ts, pos, ParameterNameExpected, ParameterTypeExpected);
      ParamsAreGroups(ts, pos + 4);
      var rest := ParamsAt(ts, pos + 4).value;
      var ps := ParamsAt(ts, pos).value;
      assert ps.value == [param.value.value] + rest.value;
      forall k | 0 <= k < |ps.value|
        ensures ts[pos + 4 * k].kind == OpenParen
        ensures ps.value[k] == Parameter(ts[pos + 4 * k + 1].value, ts[pos + 4 * k + 2].value)
      {
        if k > 0 {
          assert ps.value[k] == rest.value[k - 1];
          assert pos + 4 * k == (pos + 4) + 4 * (k - 1);
        }
      }
    }
  }

  /** A define is refused while another is being parsed; the flag is what
      refuses it. */
  lemma NestedDefineRejected(src: Input, pos: nat)
    requires WellEnded(src.tokens) && pos < |src.tokens| && IsKeyword(src.tokens[pos], "define")
    ensures FormAt(src, pos, true, true) == Err(Syntax(NestedDefinition, src.tokens[pos]))
    ensures FormAt(src, pos, false, true) == Err(Syntax(NestedDefinition, src.tokens[pos]))
  {
  }

  // ---------------------------------------------------------------------
  // No function declaration inside another

  predicate AllAdmissible(ns: seq<Node>, inDefine: bool) {
    forall i :: 0 <= i < |ns| ==> Admissible(ns[i], inDefine)
  }

  /** Every node parseExpression returns is admissible for the flag it was
      parsed with: with the flag set it holds no declaration at all, and in
      any case no declaration holds another. */
  lemma {:induction false} ExpressionAdmissible(src: Input, pos: nat, inDefine: bool)
    requires WellEnded(src.tokens) && pos < |src.tokens|
    ensures ExpressionAt(src, pos, inDefine).Ok? ==> Admissible(ExpressionAt(src, pos, inDefine).value.value, inDefine)
    decreases |src.tokens| - pos, 3
  {
    var n := CountOpens(src.tokens, pos);
    FormAdmissible(src, pos + n, n > 0, inDefine);
  }

  lemma {:induction false} FormAdmissible(src: Input, pos: nat, wrapped: bool, inDefine: bool)
    requires WellEnded(src.tokens) && pos < |src.tokens|
    ensures FormAt(src, pos, wrapped, inDefine).Ok? ==> Admissible(FormAt(src, pos, wrapped, inDefine).value.value, inDefine)
    decreases |src.tokens| - pos, 2
  {
    var t := src.tokens[pos];
    if IsKeyword(t, "let") {
      LetAdmissible(src, pos, inDefine);
    } else if IsKeyword(t, "define") {
      DefineAdmissible(src, pos, inDefine);
    } else if IsKeyword(t, "set") {
      SetAdmissible(src, pos, inDefine);
    } else if IsKeyword(t, "for") {
      ForAdmissible(src, pos, inDefine);
    } else if IsKeyword(t, "while") {
      WhileAdmissible(src, pos, inDefine);
    } else if IsKeyword(t, "if") {
      IfAdmissible(src, pos, inDefine);
    } else if t.kind == Symbol && wrapped {
      CallAdmissible(src, pos, inDefine);
    }
  }

  lemma {:induction false} LetAdmissible(src: Input, pos: nat, inDefine: bool)
    requires WellEnded(src.tokens) && pos < |src.tokens| && src.tokens[pos].kind == Symbol
    ensures LetAt(src, pos, inDefine).Ok? ==> Admissible(LetAt(src, pos, inDefine).value.value, inDefine)
    decreases |src.tokens| - pos, 1
  {
    var binding := TypedNameAt(src.tokens, pos + 1, LetNameExpected, LetTypeExpected);
    if binding.Ok? {
      ExpressionAdmissible(src, binding.value.next, inDefine);
    }
  }

  lemma {:induction false} SetAdmissible(src: Input, pos: nat, inDefine: bool)
    requires WellEnded(src.tokens) && pos < |src.tokens| && src.tokens[pos].kind == Symbol
    ensures SetAt(src, pos, inDefine).Ok? ==> Admissible(SetAt(src, pos, inDefine).value.value, inDefine)
    decreases |src.tokens| - pos, 1
  {
    if src.tokens[pos + 1].kind == Symbol {
      ExpressionAdmissible(src, pos + 2, inDefine);
    }
  }

  lemma {:induction false} IfAdmissible(src: Input, pos: nat, inDefine: bool)
    requires WellEnded(src.tokens) && pos < |src.tokens| && src.tokens[pos].kind == Symbol
    ensures IfAt(src, pos, inDefine).Ok? ==> Admissible(IfAt(src, pos, inDefine).value.value, inDefine)
    decreases |src.tokens| - pos, 1
  {
    var c := ExpressionAt(src, pos + 1, inDefine);
    ExpressionAdmissible(src, pos + 1, inDefine);
    if c.Ok? {
      var t := ExpressionAt(src, c.value.next, inDefine);
      ExpressionAdmissible(src, c.value.next, inDefine);
      if t.Ok? {
        ExpressionAdmissible(src, t.value.next, inDefine);
      }
    }
  }

  lemma {:induction false} BoundsAdmissible(src: Input, pos: nat, inDefine: bool)
    requires WellEnded(src.tokens) && pos < |src.tokens|
    ensures var r := BoundsAt(src, pos, inDefine);
      r.Ok? ==> Admissible(r.value.value.start, inDefine) && Admissible(r.value.value.end, inDefine)
                && Admissible(r.value.value.step, inDefine)
    decreases |src.tokens| - pos, 4
  {
    var start := ExpressionAt(src, pos, inDefine);
    ExpressionAdmissible(src, pos, inDefine);
    if start.Ok? {
      var end := ExpressionAt(src, start.value.next, inDefine);
      ExpressionAdmissible(src, start.value.next, inDefine);
      if end.Ok? {
        ExpressionAdmissible(src, end.value.next, inDefine);
      }
    }
  }

  lemma {:induction false} ForAdmissible(src: Input, pos: nat, inDefine: bool)
    requires WellEnded(src.tokens) && pos < |src.tokens| && src.tokens[pos].kind == Symbol
    ensures ForAt(src, pos, inDefine).Ok? ==> Admissible(ForAt(src, pos, inDefine).value.value, inDefine)
    decreases |src.tokens| - pos, 1
  {
    if src.tokens[pos + 1].kind == Symbol {
      var bounds := BoundsAt(src, pos + 2, inDefine);
      BoundsAdmissible(src, pos + 2, inDefine);
      if bounds.Ok? {
        UntilCloseAdmissible(src, bounds.value.next, inDefine);
      }
    }
  }

  lemma {:induction false} WhileAdmissible(src: Input, pos: nat, inDefine: bool)
    requires WellEnded(src.tokens) && pos < |src.tokens| && src.tokens[pos].kind == Symbol
    ensures WhileAt(src, pos, inDefine).Ok? ==> Admissible(WhileAt(src, pos, inDefine).value.value, inDefine)
    decreases |src.tokens| - pos, 1
  {
    var c := ExpressionAt(src, pos + 1, inDefine);
    ExpressionAdmissible(src, pos + 1, inDefine);
    if c.Ok? {
      UntilCloseAdmissible(src, c.value.next, inDefine);
    }
  }

  lemma {:induction false} DefineAdmissible(src: Input, pos: nat, inDefine: bool)
    requires WellEnded(src.tokens) && pos < |src.tokens| && src.tokens[pos].kind == Symbol
    ensures DefineAt(src, pos, inDefine).Ok? ==> Admissible(DefineAt(src, pos, inDefine).value.value, inDefine)
    decreases |src.tokens| - pos, 1
  {
    if !inDefine {
      var sig := SignatureAt(src.tokens, pos + 1);
      if sig.Ok? {
        UntilCloseAdmissible(src, sig.value.next, true);
      }
    }
  }

  lemma {:induction false} CallAdmissible(src: Input, pos: nat, inDefine: bool)
    requires WellEnded(src.tokens) && pos < |src.tokens|
    ensures CallAt(src, pos, inDefine).Ok? ==> Admissible(CallAt(src, pos, inDefine).value.value, inDefine)
    decreases |src.tokens| - pos, 1
  {
    if src.tokens[pos].kind == Symbol {
      UntilCloseAdmissible(src, pos + 1, inDefine);
    }
  }

  lemma {:induction false} UntilCloseAdmissible(src: Input, pos: nat, inDefine: bool)
    requires WellEnded(src.tokens) && pos < |src.tokens|
    ensures UntilClose(src, pos, inDefine).Ok? ==> AllAdmissible(UntilClose(src, pos, inDefine).value.value, inDefine)
    decreases |src.tokens| - pos, 4
  {
    if src.tokens[pos].kind != CloseParen {
      var e := ExpressionAt(src, pos, inDefine);
      ExpressionAdmissible(src, pos, inDefine);
      if e.Ok? {
        UntilCloseAdmissible(src, e.value.next, inDefine);
      }
    }
  }

  lemma {:induction false} ScriptAdmissible(src: Input, pos: nat, inDefine: bool)
    requires WellEnded(src.tokens) && pos < |src.tokens|
    ensures ScriptAt(src, pos, inDefine).Ok? ==> AllAdmissible(ScriptAt(src, pos, inDefine).value.value, inDefine)
    decreases |src.tokens| - pos
  {
    if src.tokens[pos].kind != EndOfFile {
      var e := ExpressionAt(src, pos, inDefine);
      ExpressionAdmissible(src, pos, inDefine);
      if e.Ok? {
        ScriptAdmissible(src, e.value.next, inDefine);
      }
    }
  }

  /** Every program the parser accepts is free of nested function
      declarations. */
  lemma AcceptedProgramsHaveNoNestedDefine(text: string, stod: string -> Option<real>)
    ensures ReadSource(text, stod).Tree? ==> NoNestedDefine(ReadSource(text, stod).script)
  {
    var tokens := TokensFrom(text, Start);
    if tokens.Finished? {
      ScriptAdmissible(Input(tokens.tokens, stod), 0, false);
    }
  }

  // ---------------------------------------------------------------------
  // std::stol on integer tokens

  function Digit(d: nat): char
    requires d < 10
  {
    ('0' as int + d) as char
  }

  /** The decimal digits of m, most significant first, without leading zeros. */
  function NatText(m: nat): (s: string)
    ensures |s| > 0 && forall i :: 0 <= i < |s| ==> IsDigit(s[i])
  {
    if m < 10 then [Digit(m)] else NatText(m / 10) + [Digit(m % 10)]
  }

  /** The decimal text of x, with '-' before a negative one. */
  function DecimalText(x: int): string {
    if x < 0 then "-" + NatText(-x) else NatText(x)
  }

  lemma {:induction false} DigitsEndAtEnd(s: string, i: nat)
    requires i <= |s| && forall k :: i <= k < |s| ==> IsDigit(s[k])
    ensures DigitsEnd(s, i) == |s|
    decreases |s| - i
  {
    if i < |s| {
      DigitsEndAtEnd(s, i + 1);
    }
  }

  /** The value of digits does not depend on what surrounds them. */
  lemma {:induction false} DigitsValueShift(p: string, t: string, j: nat)
    requires j <= |t|
    ensures DigitsValue(p + t, |p|, |p| + j) == DigitsValue(t, 0, j)
    decreases j
  {
    if j > 0 {
      DigitsValueShift(p, t, j - 1);
      assert (p + t)[|p| + j - 1] == t[j - 1];
    }
  }

  lemma {:induction false} DigitsValueOfNatText(m: nat)
    ensures DigitsValue(NatText(m), 0, |NatText(m)|) == m
    decreases m
  {
    var s := NatText(m);
    if m >= 10 {
      var h := NatText(m / 10);
      DigitsValueOfNatText(m / 10);
      assert s == h + [Digit(m % 10)];
      DigitsValueShift([], s, |h|);
      DigitsValueShift([], h, |h|);
      assert [] + s == s && [] + h == h;
      DigitsValuePrefix(s, h, |h|);
    }
  }

  lemma {:induction false} DigitsValuePrefix(s: string, h: string, j: nat)
    requires j <= |h| <= |s| && h == s[..|h|]
    ensures DigitsValue(s, 0, j) == DigitsValue(h, 0, j)
    decreases j
  {
    if j > 0 {
      DigitsValuePrefix(s, h, j - 1);
    }
  }

  /** std::stol reads back the decimal text of every long. */
  lemma StolReadsDecimalText(x: int)
    requires TypeSystem.IsLong(x)
    ensures Stol(DecimalText(x)) == Some(x)
  {
    var s := DecimalText(x);
    var m: nat := if x < 0 then -x else x;
    var d := NatText(m);
    var p := if x < 0 then "-" else "";
    assert s == p + d;
    assert SpacesEnd(s, 0) == 0;
    DigitsEndAtEnd(s, |p|);
    DigitsValueShift(p, d, |d|);
    DigitsValueOfNatText(m);
  }

  /** A sign alone, or nothing, is not a number: stol throws. */
  lemma StolNeedsDigits()
    ensures Stol("") == None && Stol("+") == None && Stol("-") == None && Stol("  ") == None
  {
    assert SpacesEnd("  ", 0) == 2 by {
      assert SpacesEnd("  ", 2) == 2;
    }
  }

  /** std::stol throws on the decimal text of a number above the range of
      long. */
  lemma StolRejectsAboveLong(x: int)
    requires x > TypeSystem.LongMax
    ensures Stol(DecimalText(x)) == None
  {
    var s := DecimalText(x);
    assert s == NatText(x);
    assert SpacesEnd(s, 0) == 0;
    assert !IsSign(s[0]);
    DigitsEndAtEnd(s, 0);
    DigitsValueShift([], s, |s|);
    assert [] + s == s;
    DigitsValueOfNatText(x);
    assert DigitsValue(s, 0, |s|) == x;
  }

  /** An integer literal just beyond the range of long is an invalid number. */
  lemma IntegerOutOfRangeIsInvalid(src: Input, pos: nat)
    requires WellEnded(src.tokens) && pos < |src.tokens|
    requires src.tokens[pos].kind == Integer
    requires src.tokens[pos].value == DecimalText(TypeSystem.LongMax + 1)
    ensures AtomAt(src, pos) == Err(InvalidNumber(src.tokens[pos].value))
  {
    StolRejectsAboveLong(TypeSystem.LongMax + 1);
  }

  // ---------------------------------------------------------------------
  // Lexical errors

  /** When the lexer stops at an ERROR token, the parser never reaches
      END_OF_FILE and the stream is rejected. */
  lemma ErrorEndedStreamNeverParses(src: Input, pos: nat, inDefine: bool)
    requires WellEnded(src.tokens) && pos < |src.tokens|
    requires src.tokens[|src.tokens| - 1].kind == Error
    requires forall i :: 0 <= i < |src.tokens| - 1 ==> !IsTerminal(src.tokens[i])
    ensures ScriptAt(src, pos, inDefine).Err?
  {
  }

  /** A program text on which the lexer reports an error is rejected. */
  lemma LexicalErrorRejectsProgram(text: string, stod: string -> Option<real>)
    requires TokensFrom(text, Start).Finished?
    requires var ts := TokensFrom(text, Start).tokens; ts[|ts| - 1].kind == Error
    ensures ReadSource(text, stod).Rejected?
  {
    var ts := TokensFrom(text, Start).tokens;
    ErrorEndedStreamNeverParses(Input(ts, stod), 0, false);
  }

  // ---------------------------------------------------------------------
  // An example

  function Tok(kind: TokenType, value: string): Token {
    Token(kind, value, 1, 1, "")
  }

  /** The tokens of `(f a)`, and of `((f a))`. */
  const CallTokens := [Tok(OpenParen, "("), Tok(Symbol, "f"), Tok(Symbol, "a"), Tok(CloseParen, ")"), Tok(EndOfFile, "")]
  const WrappedCallTokens :=
    [Tok(OpenParen, "("), Tok(OpenParen, "("), Tok(Symbol, "f"), Tok(Symbol, "a"), Tok(CloseParen, ")"), Tok(CloseParen, ")"), Tok(EndOfFile, "")]

  /** `( name arg )` with two symbols that are not keywords calls name on
      the variable arg. */
  lemma CallOnVariable(src: Input, pos: nat, inDefine: bool)
    requires WellEnded(src.tokens) && pos + 3 < |src.tokens|
    requires src.tokens[pos].kind == OpenParen && src.tokens[pos + 3].kind == CloseParen
    requires src.tokens[pos + 1].kind == Symbol && !IsFormKeyword(src.tokens[pos + 1])
    requires src.tokens[pos + 2].kind == Symbol && !IsFormKeyword(src.tokens[pos + 2])
    ensures ExpressionAt(src, pos, inDefine) ==
      Ok(Parsed(FunctionCallNode(src.tokens[pos + 1].value, [SymbolNode(src.tokens[pos + 2].value)]), pos + 4))
  {
    var a := SymbolNode(src.tokens[pos + 2].value);
    assert UntilClose(src, pos + 3, inDefine) == Ok(Parsed([], pos + 3));
    BareSymbolIsVariable(src, pos + 2, inDefine);
    assert [a] + [] == [a];
    assert UntilClose(src, pos + 2, inDefine) == Ok(Parsed([a], pos + 3));
    WrappedSymbolIsCall(src, pos, inDefine);
  }

  /** `(f a)` is the call of f on the variable a. */
  lemma CallExample(stod: string -> Option<real>)
    ensures ScriptAt(Input(CallTokens, stod), 0, false) == Ok(Parsed([FunctionCallNode("f", [SymbolNode("a")])], 4))
  {
    var src := Input(CallTokens, stod);
    var node := FunctionCallNode("f", [SymbolNode("a")]);
    CallOnVariable(src, 0, false);
    assert ScriptAt(src, 4, false) == Ok(Parsed([], 4));
    assert [node] + [] == [node];
  }

  /** `((f a))` is the same call: the extra parentheses change nothing. */
  lemma WrappedCallExample(stod: string -> Option<real>)
    ensures ScriptAt(Input(WrappedCallTokens, stod), 0, false) == Ok(Parsed([FunctionCallNode("f", [SymbolNode("a")])], 6))
  {
    var src := Input(WrappedCallTokens, stod);
    var node := FunctionCallNode("f", [SymbolNode("a")]);
    CallOnVariable(src, 1, false);
    ExtraParenthesesChangeNothing(src, 0, false);
    assert ScriptAt(src, 6, false) == Ok(Parsed([], 6));
    assert [node] + [] == [node];
  }
}
