/** The recursive-descent parser of MyLisp/Parser.cpp.

    The parser reads the tokens GetNextToken returns, one current token at a
    time; since it never consumes END_OF_FILE or ERROR, it never looks past
    the first of them, so the model hands it that stream as a sequence whose
    last token is terminal, with the cursor `pos` on the current token.

    The functions below (ExpressionAt and the forms it dispatches to) are
    the reference meaning of each parse method: from a position and the
    define flag they give the node and the position after it, or the error
    thrown. Their contracts carry what every successful parse guarantees:
    it consumes at least one token, and no function declaration ends up
    inside another. Where the parser calls consume on a token whose kind it
    has just checked, the consume cannot fail and the functions simply step
    past the token. The class Parser is the imperative parser, whose
    methods are proved to compute exactly these functions. */
module Parser {
  import opened Wrappers
  import opened Chars
  import opened Ast
  import opened Lexer
  import TypeSystem

  /** The tokens the parser is handed, and std::stod, which the model does
      not define (None where it throws). */
  datatype Input = Input(tokens: seq<Token>, stod: string -> Option<real>)

  /** The stream ends with END_OF_FILE or ERROR, as every finished
      tokenization does. */
  predicate WellEnded(ts: seq<Token>) {
    |ts| > 0 && IsTerminal(ts[|ts| - 1])
  }

  /** The complaints of throwError. */
  datatype Complaint =
    | MismatchedParentheses
    | IndexNameExpected          // after 'for'
    | VariableNameExpected       // after 'set'
    | LetNameExpected            // after 'let'
    | LetTypeExpected            // after the variable name of 'let'
    | NestedDefinition
    | FunctionNameExpected       // after 'define'
    | ParameterNameExpected
    | ParameterTypeExpected
    | ReturnTypeExpected
    | CalleeExpected             // in a function call
    | UnexpectedToken            // parseAtom on any other kind

  /** What the parser throws: consume's mismatch, throwError with the
      current token, or a failing std::stol / std::stod. */
  datatype ParseError =
    | Unexpected(expected: TokenType, got: Token)
    | Syntax(complaint: Complaint, at: Token)
    | InvalidNumber(text: string)

  /** A parsed value and the position of the token after it. */
  datatype Parsed<T> = Parsed(value: T, next: nat)

  /** The symbol token `word`: how the special forms are recognised. */
  predicate IsKeyword(t: Token, word: string) {
    t.kind == Symbol && t.value == word
  }

  predicate IsFormKeyword(t: Token) {
    IsKeyword(t, "let") || IsKeyword(t, "define") || IsKeyword(t, "set")
    || IsKeyword(t, "for") || IsKeyword(t, "while") || IsKeyword(t, "if")
  }

  // ---------------------------------------------------------------------
  // std::stol

  /** The end of the run of white space from index i. */
  function SpacesEnd(s: string, i: nat): (j: nat)
    requires i <= |s|
    ensures i <= j <= |s|
    decreases |s| - i
  {
    if i < |s| && IsSpace(s[i]) then SpacesEnd(s, i + 1) else i
  }

  /** The end of the run of decimal digits from index i. */
  function DigitsEnd(s: string, i: nat): (j: nat)
    requires i <= |s|
    ensures i <= j <= |s|
    decreases |s| - i
  {
    if i < |s| && IsDigit(s[i]) then DigitsEnd(s, i + 1) else i
  }

  /** The number s[i..j] denotes, read as decimal digits. */
  function DigitsValue(s: string, i: nat, j: nat): int
    requires i <= j <= |s|
    decreases j - i
  {
    if j == i then 0 else DigitsValue(s, i, j - 1) * 10 + (s[j - 1] as int - '0' as int)
  }

  /** std::stol in base 10: leading white space, an optional sign, then the
      longest run of digits, which must not be empty; the rest of the text
      is ignored. None where it throws: no digits (invalid_argument) or a
      value outside long (out_of_range). */
  function Stol(s: string): (r: Option<int>)
    ensures r.Some? ==> TypeSystem.IsLong(r.value)
  {
    var a := SpacesEnd(s, 0);
    var b := if a < |s| && IsSign(s[a]) then a + 1 else a;
    var e := DigitsEnd(s, b);
    if e == b then None
    else
      var m := DigitsValue(s, b, e);
      var v: int := if a < |s| && s[a] == '-' then -m else m;
      if TypeSystem.IsLong(v) then Some(v) else None
  }

  // ---------------------------------------------------------------------
  // What a successful parse guarantees

  /** The tree holds no function declaration at all. */
  predicate DeclarationFree(n: Node) {
    match n
    case ScriptNode(ss) => forall i :: 0 <= i < |ss| ==> DeclarationFree(ss[i])
    case VariableDeclarationNode(_, _, v) => DeclarationFree(v)
    case FunctionDeclarationNode(_, _, _, _) => false
    case FunctionCallNode(_, args) => forall i :: 0 <= i < |args| ==> DeclarationFree(args[i])
    case VariableAssignmentNode(_, v) => DeclarationFree(v)
    case ForIterationNode(_, s, e, t, body) =>
      DeclarationFree(s) && DeclarationFree(e) && DeclarationFree(t) && forall i :: 0 <= i < |body| ==> DeclarationFree(body[i])
    case WhileIterationNode(c, body) => DeclarationFree(c) && forall i :: 0 <= i < |body| ==> DeclarationFree(body[i])
    case IfNode(c, t, e) => DeclarationFree(c) && DeclarationFree(t) && DeclarationFree(e)
    case _ => true
  }

  /** No function declaration sits inside the body of another one. */
  predicate NoNestedDefine(n: Node) {
    match n
    case ScriptNode(ss) => forall i :: 0 <= i < |ss| ==> NoNestedDefine(ss[i])
    case VariableDeclarationNode(_, _, v) => NoNestedDefine(v)
    case FunctionDeclarationNode(_, _, _, body) => forall i :: 0 <= i < |body| ==> DeclarationFree(body[i])
    case FunctionCallNode(_, args) => forall i :: 0 <= i < |args| ==> NoNestedDefine(args[i])
    case VariableAssignmentNode(_, v) => NoNestedDefine(v)
    case ForIterationNode(_, s, e, t, body) =>
      NoNestedDefine(s) && NoNestedDefine(e) && NoNestedDefine(t) && forall i :: 0 <= i < |body| ==> NoNestedDefine(body[i])
    case WhileIterationNode(c, body) => NoNestedDefine(c) && forall i :: 0 <= i < |body| ==> NoNestedDefine(body[i])
    case IfNode(c, t, e) => NoNestedDefine(c) && NoNestedDefine(t) && NoNestedDefine(e)
    case _ => true
  }

  /** A node parsed with the define flag in the given state. */
  predicate Admissible(n: Node, inDefine: bool) {
    NoNestedDefine(n) && (inDefine ==> DeclarationFree(n))
  }

  /** A successful parse of one node from pos consumed at least one token
      and left the cursor inside the stream. */
  predicate Advances(ts: seq<Token>, pos: nat, r: Result<Parsed<Node>, ParseError>) {
    r.Ok? ==> pos < r.value.next < |ts|
  }

  // ---------------------------------------------------------------------
  // The reference parse functions

  /** consume(kind): advance past the current token if it has that kind. */
  function ConsumeAt(ts: seq<Token>, pos: nat, kind: TokenType): (r: Result<nat, ParseError>)
    requires WellEnded(ts) && pos < |ts| && kind != EndOfFile && kind != Error
    ensures r.Ok? <==> ts[pos].kind == kind
    ensures r.Ok? ==> r.value == pos + 1 < |ts|
  {
    if ts[pos].kind == kind then Ok(pos + 1) else Err(Unexpected(kind, ts[pos]))
  }

  /** The number of OPEN_PAREN tokens parseExpression unwraps from pos. */
  function CountOpens(ts: seq<Token>, pos: nat): (n: nat)
    requires WellEnded(ts) && pos < |ts|
    ensures pos + n < |ts|
    decreases |ts| - pos
  {
    if ts[pos].kind == OpenParen then 1 + CountOpens(ts, pos + 1) else 0
  }

  /** The number of CLOSE_PAREN tokens parseExpression then consumes from
      pos: as many as follow, but at most n. */
  function CloseRun(ts: seq<Token>, pos: nat, n: nat): (c: nat)
    requires WellEnded(ts) && pos < |ts|
    ensures c <= n && pos + c < |ts|
    decreases n
  {
    if n > 0 && ts[pos].kind == CloseParen then 1 + CloseRun(ts, pos + 1, n - 1) else 0
  }

  /** parseExpression: unwrap the leading parentheses, parse the form, then
      close as many parentheses as were opened. */
  function ExpressionAt(src: Input, pos: nat, inDefine: bool): (r: Result<Parsed<Node>, ParseError>)
    requires WellEnded(src.tokens) && pos < |src.tokens|
    ensures Advances(src.tokens, pos, r)
    decreases |src.tokens| - pos, 3
  {
    var ts := src.tokens;
    var n := CountOpens(ts, pos);
    var form :- FormAt(src, pos + n, n > 0, inDefine);
    var c := CloseRun(ts, form.next, n);
    if c < n then Err(Syntax(MismatchedParentheses, ts[form.next + c]))
    else Ok(Parsed(form.value, form.next + n))
  }

  /** The dispatch of parseExpression on the current token, once the
      parentheses are unwrapped; `wrapped` says whether there were any. */
  function FormAt(src: Input, pos: nat, wrapped: bool, inDefine: bool): (r: Result<Parsed<Node>, ParseError>)
    requires WellEnded(src.tokens) && pos < |src.tokens|
    ensures Advances(src.tokens, pos, r)
    decreases |src.tokens| - pos, 2
  {
    var t := src.tokens[pos];
    if IsKeyword(t, "let") then LetAt(src, pos, inDefine)
    else if IsKeyword(t, "define") then DefineAt(src, pos, inDefine)
    else if IsKeyword(t, "set") then SetAt(src, pos, inDefine)
    else if IsKeyword(t, "for") then ForAt(src, pos, inDefine)
    else if IsKeyword(t, "while") then WhileAt(src, pos, inDefine)
    else if IsKeyword(t, "if") then IfAt(src, pos, inDefine)
    else if t.kind == Symbol && wrapped then CallAt(src, pos, inDefine)
    else AtomAt(src, pos)
  }

  /** parseIf: the keyword, then exactly three expressions. */
  function IfAt(src: Input, pos: nat, inDefine: bool): (r: Result<Parsed<Node>, ParseError>)
    requires WellEnded(src.tokens) && pos < |src.tokens| && src.tokens[pos].kind == Symbol
    ensures Advances(src.tokens, pos, r)
    decreases |src.tokens| - pos, 1
  {
    var p := pos + 1;
    var c :- ExpressionAt(src, p, inDefine);
    var t :- ExpressionAt(src, c.next, inDefine);
    var e :- ExpressionAt(src, t.next, inDefine);
    Ok(Parsed(IfNode(c.value, t.value, e.value), e.next))
  }

  /** The start, end and step expressions of a for iteration. */
  datatype Bounds = Bounds(start: Node, end: Node, step: Node)

  /** The three bound expressions of parseForIteration, in order. */
  function BoundsAt(src: Input, pos: nat, inDefine: bool): (r: Result<Parsed<Bounds>, ParseError>)
    requires WellEnded(src.tokens) && pos < |src.tokens|
    ensures r.Ok? ==> pos < r.value.next < |src.tokens|
    decreases |src.tokens| - pos, 4
  {
    var start :- ExpressionAt(src, pos, inDefine);
    var end :- ExpressionAt(src, start.next, inDefine);
    var step :- ExpressionAt(src, end.next, inDefine);
    Ok(Parsed(Bounds(start.value, end.value, step.value), step.next))
  }

  /** parseForIteration: the keyword, the index name, start, end and step,
      then the body up to the closing parenthesis (not consumed). */
  function ForAt(src: Input, pos: nat, inDefine: bool): (r: Result<Parsed<Node>, ParseError>)
    requires WellEnded(src.tokens) && pos < |src.tokens| && src.tokens[pos].kind == Symbol
    ensures Advances(src.tokens, pos, r)
    decreases |src.tokens| - pos, 1
  {
    var ts := src.tokens;
    var p := pos + 1;
    if ts[p].kind != Symbol then Err(Syntax(IndexNameExpected, ts[p]))
    else
      var index := ts[p].value;
      var bounds :- BoundsAt(src, p + 1, inDefine);
      var body :- UntilClose(src, bounds.next, inDefine);
      var b := bounds.value;
      Ok(Parsed(ForIterationNode(index, b.start, b.end, b.step, body.value), body.next))
  }

  /** parseWhileIteration: the keyword, the condition, then the body up to
      the closing parenthesis (not consumed). */
  function WhileAt(src: Input, pos: nat, inDefine: bool): (r: Result<Parsed<Node>, ParseError>)
    requires WellEnded(src.tokens) && pos < |src.tokens| && src.tokens[pos].kind == Symbol
    ensures Advances(src.tokens, pos, r)
    decreases |src.tokens| - pos, 1
  {
    var p := pos + 1;
    var c :- ExpressionAt(src, p, inDefine);
    var body :- UntilClose(src, c.next, inDefine);
    Ok(Parsed(WhileIterationNode(c.value, body.value), body.next))
  }

  /** parseSet: the keyword, a variable name, one expression. */
  function SetAt(src: Input, pos: nat, inDefine: bool): (r: Result<Parsed<Node>, ParseError>)
    requires WellEnded(src.tokens) && pos < |src.tokens| && src.tokens[pos].kind == Symbol
    ensures Advances(src.tokens, pos, r)
    decreases |src.tokens| - pos, 1
  {
    var ts := src.tokens;
    var p := pos + 1;
    if ts[p].kind != Symbol then Err(Syntax(VariableNameExpected, ts[p]))
    else
      var name := ts[p].value;
      var q := p + 1;
      var v :- ExpressionAt(src, q, inDefine);
      Ok(Parsed(VariableAssignmentNode(name, v.value), v.next))
  }

  /** The `( name type )` group of parseLet and of each parameter of
      parseDefine: consume OPEN_PAREN, the name symbol, the type symbol,
      consume CLOSE_PAREN. The two complaints are those for a missing name
      and a missing type. */
  function TypedNameAt(ts: seq<Token>, pos: nat, nameMissing: Complaint, typeMissing: Complaint): (r: Result<Parsed<Parameter>, ParseError>)
    requires WellEnded(ts) && pos < |ts|
    ensures r.Ok? ==> r.value.next == pos + 4 < |ts|
    ensures r.Ok? ==> r.value.value == Parameter(ts[pos + 1].value, ts[pos + 2].value)
  {
    var p :- ConsumeAt(ts, pos, OpenParen);
    if ts[p].kind != Symbol then Err(Syntax(nameMissing, ts[p]))
    else
      var name := ts[p].value;
      var q := p + 1;
      if ts[q].kind != Symbol then Err(Syntax(typeMissing, ts[q]))
      else
        var typeName := ts[q].value;
        var s :- ConsumeAt(ts, q + 1, CloseParen);
        Ok(Parsed(Parameter(name, typeName), s))
  }

  /** parseLet: the keyword, `( name type )`, one expression. */
  function LetAt(src: Input, pos: nat, inDefine: bool): (r: Result<Parsed<Node>, ParseError>)
    requires WellEnded(src.tokens) && pos < |src.tokens| && src.tokens[pos].kind == Symbol
    ensures Advances(src.tokens, pos, r)
    decreases |src.tokens| - pos, 1
  {
    var binding :- TypedNameAt(src.tokens, pos + 1, LetNameExpected, LetTypeExpected);
    var v :- ExpressionAt(src, binding.next, inDefine);
    Ok(Parsed(VariableDeclarationNode(binding.value.name, binding.value.typeName, v.value), v.next))
  }

  /** The parameter list of parseDefine from just after its opening
      parenthesis: `( name type )` groups up to the closing parenthesis (not
      consumed). */
  function ParamsAt(ts: seq<Token>, pos: nat): (r: Result<Parsed<seq<Parameter>>, ParseError>)
    requires WellEnded(ts) && pos < |ts|
    ensures r.Ok? ==> pos <= r.value.next < |ts| && ts[r.value.next].kind == CloseParen
    decreases |ts| - pos
  {
    if ts[pos].kind == CloseParen then Ok(Parsed([], pos))
    else
      var param :- TypedNameAt(ts, pos, ParameterNameExpected, ParameterTypeExpected);
      var rest :- ParamsAt(ts, param.next);
      Ok(Parsed([param.value] + rest.value, rest.next))
  }

  /** The head of a function declaration. */
  datatype Signature = Signature(name: string, parameters: seq<Parameter>, returnType: string)

  /** What parseDefine reads between the keyword and the body: the function
      name, the parenthesised parameter list and the return type. */
  function SignatureAt(ts: seq<Token>, pos: nat): (r: Result<Parsed<Signature>, ParseError>)
    requires WellEnded(ts) && pos < |ts|
    ensures r.Ok? ==> pos < r.value.next < |ts|
  {
    if ts[pos].kind != Symbol then Err(Syntax(FunctionNameExpected, ts[pos]))
    else
      var name := ts[pos].value;
      var s :- ConsumeAt(ts, pos + 1, OpenParen);
      var params :- ParamsAt(ts, s);
      var u := params.next + 1;
      if ts[u].kind != Symbol then Err(Syntax(ReturnTypeExpected, ts[u]))
      else Ok(Parsed(Signature(name, params.value, ts[u].value), u + 1))
  }

  /** parseDefine: refused inside another define; otherwise the keyword, the
      signature and the body up to the closing parenthesis (not consumed),
      parsed with the flag set. */
  function DefineAt(src: Input, pos: nat, inDefine: bool): (r: Result<Parsed<Node>, ParseError>)
    requires WellEnded(src.tokens) && pos < |src.tokens| && src.tokens[pos].kind == Symbol
    ensures Advances(src.tokens, pos, r)
    decreases |src.tokens| - pos, 1
  {
    if inDefine then Err(Syntax(NestedDefinition, src.tokens[pos]))
    else
      var sig :- SignatureAt(src.tokens, pos + 1);
      var body :- UntilClose(src, sig.next, true);
      var g := sig.value;
      Ok(Parsed(FunctionDeclarationNode(g.name, g.parameters, g.returnType, body.value), body.next))
  }

  /** parseFunctionCall: the function name, then the arguments up to the
      closing parenthesis (not consumed). */
  function CallAt(src: Input, pos: nat, inDefine: bool): (r: Result<Parsed<Node>, ParseError>)
    requires WellEnded(src.tokens) && pos < |src.tokens|
    ensures Advances(src.tokens, pos, r)
    decreases |src.tokens| - pos, 1
  {
    var ts := src.tokens;
    if ts[pos].kind != Symbol then Err(Syntax(CalleeExpected, ts[pos]))
    else
      var name := ts[pos].value;
      var p := pos + 1;
      var args :- UntilClose(src, p, inDefine);
      Ok(Parsed(FunctionCallNode(name, args.value), args.next))
  }

  /** parseAtom: one literal or symbol token. */
  function AtomAt(src: Input, pos: nat): (r: Result<Parsed<Node>, ParseError>)
    requires WellEnded(src.tokens) && pos < |src.tokens|
    ensures r.Ok? ==> r.value.next == pos + 1 < |src.tokens| && DeclarationFree(r.value.value)
  {
    var t := src.tokens[pos];
    match t.kind
    case Symbol => Ok(Parsed(SymbolNode(t.value), pos + 1))
    case Integer =>
      (match Stol(t.value)
       case None => Err(InvalidNumber(t.value))
       case Some(x) => Ok(Parsed(IntegerNode(x), pos + 1)))
    case Float =>
      (match src.stod(t.value)
       case None => Err(InvalidNumber(t.value))
       case Some(d) => Ok(Parsed(FloatNode(d), pos + 1)))
    case BoolTrue => Ok(Parsed(BooleanNode(true), pos + 1))
    case BoolFalse => Ok(Parsed(BooleanNode(false), pos + 1))
    case String => Ok(Parsed(StringNode(t.value), pos + 1))
    case _ => Err(Syntax(UnexpectedToken, t))
  }

  /** The loop `while current != CLOSE_PAREN: push_back(parseExpression())`
      of the for, while, define and call forms. */
  function UntilClose(src: Input, pos: nat, inDefine: bool): (r: Result<Parsed<seq<Node>>, ParseError>)
    requires WellEnded(src.tokens) && pos < |src.tokens|
    ensures r.Ok? ==> pos <= r.value.next < |src.tokens| && src.tokens[r.value.next].kind == CloseParen
    decreases |src.tokens| - pos, 4
  {
    if src.tokens[pos].kind == CloseParen then Ok(Parsed([], pos))
    else
      var e :- ExpressionAt(src, pos, inDefine);
      var rest :- UntilClose(src, e.next, inDefine);
      Ok(Parsed([e.value] + rest.value, rest.next))
  }

  /** The loop of parse: expressions until END_OF_FILE. */
  function ScriptAt(src: Input, pos: nat, inDefine: bool): (r: Result<Parsed<seq<Node>>, ParseError>)
    requires WellEnded(src.tokens) && pos < |src.tokens|
    ensures r.Ok? ==> pos <= r.value.next < |src.tokens| && src.tokens[r.value.next].kind == EndOfFile
    decreases |src.tokens| - pos
  {
    if src.tokens[pos].kind == EndOfFile then Ok(Parsed([], pos))
    else
      var e :- ExpressionAt(src, pos, inDefine);
      var rest :- ScriptAt(src, e.next, inDefine);
      Ok(Parsed([e.value] + rest.value, rest.next))
  }

  /** Prefix the nodes already collected to the outcome of the rest of a
      loop. */
  function PrependDone<T>(done: seq<T>, r: Result<Parsed<seq<T>>, ParseError>): Result<Parsed<seq<T>>, ParseError> {
    match r
    case Ok(p) => Ok(Parsed(done + p.value, p.next))
    case Err(e) => Err(e)
  }

  lemma PrependDoneSnoc<T>(done: seq<T>, x: T, r: Result<Parsed<seq<T>>, ParseError>)
    ensures PrependDone(done + [x], r) == PrependDone(done, PrependDone([x], r))
  {
    if r.Ok? {
      assert done + [x] + r.value.value == done + ([x] + r.value.value);
    }
  }

  lemma PrependDoneNothing<T>(r: Result<Parsed<seq<T>>, ParseError>)
    ensures PrependDone([], r) == r
  {
    if r.Ok? {
      assert [] + r.value.value == r.value.value;
    }
  }

  /** A parse method's result r and the state it leaves (cursor at pos,
      define flag inDefine) are those the reference function gives; on
      success the flag is back to `flag`. */
  ghost predicate Follows<T>(r: Result<T, ParseError>, pos: nat, inDefine: bool, spec: Result<Parsed<T>, ParseError>, flag: bool) {
    match spec
    case Ok(p) => r == Ok(p.value) && pos == p.next && inDefine == flag
    case Err(e) => r == Err(e)
  }

  /** The parser object: the token stream with the current token at `pos`,
      std::stod, and the define flag. */
  class Parser {
    const source: Input
    var pos: nat
    var isParsingDefine: bool

    ghost predicate Valid()
      reads this
    {
      WellEnded(source.tokens) && pos < |source.tokens|
    }

    /** currentToken_ */
    function Current(): Token
      reads this
      requires Valid()
    {
      source.tokens[pos]
    }

    /** The constructor reads the first token; the flag starts cleared. */
    constructor (tokens: seq<Token>, stod: string -> Option<real>)
      requires WellEnded(tokens)
      ensures Valid() && source == Input(tokens, stod) && pos == 0 && !isParsingDefine
    {
      source := Input(tokens, stod);
      pos := 0;
      isParsingDefine := false;
    }

    /** consume */
    method Consume(kind: TokenType) returns (r: Result<(), ParseError>)
      requires Valid() && kind != EndOfFile && kind != Error
      modifies this
      ensures Valid() && isParsingDefine == old(isParsingDefine)
      ensures match ConsumeAt(source.tokens, old(pos), kind)
        case Ok(p) => r.Ok? && pos == p
        case Err(e) => r == Err(e) && pos == old(pos)
    {
      if Current().kind == kind {
        pos := pos + 1;
        r := Ok(());
      } else {
        r := Err(Unexpected(kind, Current()));
      }
    }

    /** parse */
    method Parse() returns (r: Result<Node, ParseError>)
      requires Valid()
      modifies this
      ensures Valid()
      ensures match ScriptAt(source, old(pos), old(isParsingDefine))
        case Ok(p) => r == Ok(ScriptNode(p.value)) && pos == p.next
        case Err(e) => r == Err(e)
    {
      ghost var expected := ScriptAt(source, pos, isParsingDefine);
      var statements: seq<Node> := [];
      PrependDoneNothing(expected);
      while Current().kind != EndOfFile
        invariant Valid() && isParsingDefine == old(isParsingDefine)
        invariant expected == PrependDone(statements, ScriptAt(source, pos, isParsingDefine))
        decreases |source.tokens| - pos
      {
        var e := ParseExpression();
        if e.Err? {
          return Err(e.error);
        }
        PrependDoneSnoc(statements, e.value, ScriptAt(source, pos, isParsingDefine));
        statements := statements + [e.value];
      }
      assert statements + [] == statements;
      return Ok(ScriptNode(statements));
    }

    /** The first loop of parseExpression: consume the opening
        parentheses and count them. */
    method ConsumeOpens() returns (openParenCount: nat)
      requires Valid()
      modifies this
      ensures Valid() && isParsingDefine == old(isParsingDefine)
      ensures openParenCount == CountOpens(source.tokens, old(pos))
      ensures pos == old(pos) + openParenCount
    {
      openParenCount := 0;
      while Current().kind == OpenParen
        invariant Valid() && isParsingDefine == old(isParsingDefine)
        invariant pos == old(pos) + openParenCount
        invariant CountOpens(source.tokens, old(pos)) == openParenCount + CountOpens(source.tokens, pos)
        decreases |source.tokens| - pos
      {
        var ok := Consume(OpenParen);
        openParenCount := openParenCount + 1;
      }
    }

    /** The second loop of parseExpression: consume closing parentheses
        while any are left to close; returns how many are still open. */
    method ConsumeCloses(openParenCount: nat) returns (stillOpen: nat)
      requires Valid()
      modifies this
      ensures Valid() && isParsingDefine == old(isParsingDefine)
      ensures pos == old(pos) + CloseRun(source.tokens, old(pos), openParenCount)
      ensures stillOpen == openParenCount - CloseRun(source.tokens, old(pos), openParenCount)
    {
      stillOpen := openParenCount;
      while stillOpen > 0 && Current().kind == CloseParen
        invariant Valid() && isParsingDefine == old(isParsingDefine)
        invariant old(pos) <= pos && pos - old(pos) + stillOpen == openParenCount
        invariant CloseRun(source.tokens, old(pos), openParenCount) == (pos - old(pos)) + CloseRun(source.tokens, pos, stillOpen)
        decreases stillOpen
      {
        var ok := Consume(CloseParen);
        stillOpen := stillOpen - 1;
      }
    }

    /** parseExpression */
    method ParseExpression() returns (r: Result<Node, ParseError>)
      requires Valid()
      modifies this
      ensures Valid()
      ensures Follows(r, pos, isParsingDefine, ExpressionAt(source, old(pos), old(isParsingDefine)), old(isParsingDefine))
      decreases |source.tokens| - pos, 3
    {
      var openParenCount := ConsumeOpens();
      r := ParseForm(openParenCount > 0);
      if r.Err? {
        return;
      }
      var stillOpen := ConsumeCloses(openParenCount);
      if stillOpen != 0 {
        r := Err(Syntax(MismatchedParentheses, Current()));
      }
    }

    /** The dispatch of parseExpression on the token after the opening
        parentheses. */
    method ParseForm(wrapped: bool) returns (r: Result<Node, ParseError>)
      requires Valid()
      modifies this
      ensures Valid()
      ensures Follows(r, pos, isParsingDefine, FormAt(source, old(pos), wrapped, old(isParsingDefine)), old(isParsingDefine))
      decreases |source.tokens| - pos, 2
    {
      var t := Current();
      if IsKeyword(t, "let") {
        r := ParseLet();
      } else if IsKeyword(t, "define") {
        r := ParseDefine();
      } else if IsKeyword(t, "set") {
        r := ParseSet();
      } else if IsKeyword(t, "for") {
        r := ParseForIteration();
      } else if IsKeyword(t, "while") {
        r := ParseWhileIteration();
      } else if IsKeyword(t, "if") {
        r := ParseIf();
      } else if t.kind == Symbol && wrapped {
        r := ParseFunctionCall();
      } else {
        r := ParseAtom();
      }
    }

    /** parseIf */
    method ParseIf() returns (r: Result<Node, ParseError>)
      requires Valid() && Current().kind == Symbol
      modifies this
      ensures Valid()
      ensures Follows(r, pos, isParsingDefine, IfAt(source, old(pos), old(isParsingDefine)), old(isParsingDefine))
      decreases |source.tokens| - pos, 1
    {
      var ok := Consume(Symbol);
      var condition := ParseExpression();
      if condition.Err? {
        return condition;
      }
      var thenBranch := ParseExpression();
      if thenBranch.Err? {
        return thenBranch;
      }
      var elseBranch := ParseExpression();
      if elseBranch.Err? {
        return elseBranch;
      }
      r := Ok(IfNode(condition.value, thenBranch.value, elseBranch.value));
    }

    /** The three bound expressions of parseForIteration. */
    method ParseBounds() returns (r: Result<Bounds, ParseError>)
      requires Valid()
      modifies this
      ensures Valid()
      ensures Follows(r, pos, isParsingDefine, BoundsAt(source, old(pos), old(isParsingDefine)), old(isParsingDefine))
      decreases |source.tokens| - pos, 4
    {
      var start := ParseExpression();
      if start.Err? {
        return Err(start.error);
      }
      var end := ParseExpression();
      if end.Err? {
        return Err(end.error);
      }
      var step := ParseExpression();
      if step.Err? {
        return Err(step.error);
      }
      r := Ok(Bounds(start.value, end.value, step.value));
    }

    /** parseForIteration */
    method ParseForIteration() returns (r: Result<Node, ParseError>)
      requires Valid() && Current().kind == Symbol
      modifies this
      ensures Valid()
      ensures Follows(r, pos, isParsingDefine, ForAt(source, old(pos), old(isParsingDefine)), old(isParsingDefine))
      decreases |source.tokens| - pos, 1
    {
      var ok := Consume(Symbol);
      if Current().kind != Symbol {
        return Err(Syntax(IndexNameExpected, Current()));
      }
      var index := Current().value;
      ok := Consume(Symbol);
      var bounds := ParseBounds();
      if bounds.Err? {
        return Err(bounds.error);
      }
      var body := ParseUntilClose();
      if body.Err? {
        return Err(body.error);
      }
      var b := bounds.value;
      r := Ok(ForIterationNode(index, b.start, b.end, b.step, body.value));
    }

    /** parseWhileIteration */
    method ParseWhileIteration() returns (r: Result<Node, ParseError>)
      requires Valid() && Current().kind == Symbol
      modifies this
      ensures Valid()
      ensures Follows(r, pos, isParsingDefine, WhileAt(source, old(pos), old(isParsingDefine)), old(isParsingDefine))
      decreases |source.tokens| - pos, 1
    {
      var ok := Consume(Symbol);
      var condition := ParseExpression();
      if condition.Err? {
        return condition;
      }
      var body := ParseUntilClose();
      if body.Err? {
        return Err(body.error);
      }
      r := Ok(WhileIterationNode(condition.value, body.value));
    }

    /** parseSet */
    method ParseSet() returns (r: Result<Node, ParseError>)
      requires Valid() && Current().kind == Symbol
      modifies this
      ensures Valid()
      ensures Follows(r, pos, isParsingDefine, SetAt(source, old(pos), old(isParsingDefine)), old(isParsingDefine))
      decreases |source.tokens| - pos, 1
    {
      var ok := Consume(Symbol);
      if Current().kind != Symbol {
        return Err(Syntax(VariableNameExpected, Current()));
      }
      var variableName := Current().value;
      ok := Consume(Symbol);
      var valueNode := ParseExpression();
      if valueNode.Err? {
        return valueNode;
      }
      r := Ok(VariableAssignmentNode(variableName, valueNode.value));
    }

    /** parseAtom */
    method ParseAtom() returns (r: Result<Node, ParseError>)
      requires Valid()
      modifies this
      ensures Valid()
      ensures Follows(r, pos, isParsingDefine, AtomAt(source, old(pos)), old(isParsingDefine))
    {
      var t := Current();
      if t.kind == Symbol {
        r := Ok(SymbolNode(t.value));
      } else if t.kind == Integer {
        var x := Stol(t.value);
        if x.None? {
          return Err(InvalidNumber(t.value));
        }
        r := Ok(IntegerNode(x.value));
      } else if t.kind == Float {
        var d := source.stod(t.value);
        if d.None? {
          return Err(InvalidNumber(t.value));
        }
        r := Ok(FloatNode(d.value));
      } else if t.kind == BoolTrue {
        r := Ok(BooleanNode(true));
      } else if t.kind == BoolFalse {
        r := Ok(BooleanNode(false));
      } else if t.kind == String {
        r := Ok(StringNode(t.value));
      } else {
        return Err(Syntax(UnexpectedToken, t));
      }
      var ok := Consume(t.kind);
    }

    /** The `( name type )` group of parseLet and of each parameter of
        parseDefine, which the source writes out in both places. */
    method ParseTypedName(nameMissing: Complaint, typeMissing: Complaint) returns (r: Result<Parameter, ParseError>)
      requires Valid()
      modifies this
      ensures Valid() && isParsingDefine == old(isParsingDefine)
      ensures Follows(r, pos, isParsingDefine, TypedNameAt(source.tokens, old(pos), nameMissing, typeMissing), old(isParsingDefine))
    {
      var ok := Consume(OpenParen);
      if ok.Err? {
        return Err(ok.error);
      }
      if Current().kind != Symbol {
        return Err(Syntax(nameMissing, Current()));
      }
      var name := Current().value;
      ok := Consume(Symbol);
      if Current().kind != Symbol {
        return Err(Syntax(typeMissing, Current()));
      }
      var typeName := Current().value;
      ok := Consume(Symbol);
      ok := Consume(CloseParen);
      if ok.Err? {
        return Err(ok.error);
      }
      r := Ok(Parameter(name, typeName));
    }

    /** parseLet */
    method ParseLet() returns (r: Result<Node, ParseError>)
      requires Valid() && Current().kind == Symbol
      modifies this
      ensures Valid()
      ensures Follows(r, pos, isParsingDefine, LetAt(source, old(pos), old(isParsingDefine)), old(isParsingDefine))
      decreases |source.tokens| - pos, 1
    {
      var ok := Consume(Symbol);
      var binding := ParseTypedName(LetNameExpected, LetTypeExpected);
      if binding.Err? {
        return Err(binding.error);
      }
      var valueNode := ParseExpression();
      if valueNode.Err? {
        return valueNode;
      }
      r := Ok(VariableDeclarationNode(binding.value.name, binding.value.typeName, valueNode.value));
    }

    /** The parameter loop of parseDefine. */
    method ParseParameters() returns (r: Result<seq<Parameter>, ParseError>)
      requires Valid()
      modifies this
      ensures Valid() && isParsingDefine == old(isParsingDefine)
      ensures match ParamsAt(source.tokens, old(pos))
        case Ok(p) => r == Ok(p.value) && pos == p.next
        case Err(e) => r == Err(e)
    {
      ghost var expected := ParamsAt(source.tokens, pos);
      var parameters: seq<Parameter> := [];
      PrependDoneNothing(expected);
      while Current().kind != CloseParen
        invariant Valid() && isParsingDefine == old(isParsingDefine)
        invariant expected == PrependDone(parameters, ParamsAt(source.tokens, pos))
        decreases |source.tokens| - pos
      {
        var param := ParseTypedName(ParameterNameExpected, ParameterTypeExpected);
        if param.Err? {
          return Err(param.error);
        }
        PrependDoneSnoc(parameters, param.value, ParamsAt(source.tokens, pos));
        parameters := parameters + [param.value];
      }
      assert parameters + [] == parameters;
      return Ok(parameters);
    }

    /** The signature part of parseDefine: name, parameter list, return
        type. */
    method ParseSignature() returns (r: Result<Signature, ParseError>)
      requires Valid()
      modifies this
      ensures Valid() && isParsingDefine == old(isParsingDefine)
      ensures Follows(r, pos, isParsingDefine, SignatureAt(source.tokens, old(pos)), old(isParsingDefine))
    {
      if Current().kind != Symbol {
        return Err(Syntax(FunctionNameExpected, Current()));
      }
      var funcName := Current().value;
      var ok := Consume(Symbol);
      ok := Consume(OpenParen);
      if ok.Err? {
        return Err(ok.error);
      }
      var parameters := ParseParameters();
      if parameters.Err? {
        return Err(parameters.error);
      }
      ok := Consume(CloseParen);
      if Current().kind != Symbol {
        return Err(Syntax(ReturnTypeExpected, Current()));
      }
      var returnType := Current().value;
      ok := Consume(Symbol);
      r := Ok(Signature(funcName, parameters.value, returnType));
    }

    /** parseDefine */
    method ParseDefine() returns (r: Result<Node, ParseError>)
      requires Valid() && Current().kind == Symbol
      modifies this
      ensures Valid()
      ensures Follows(r, pos, isParsingDefine, DefineAt(source, old(pos), old(isParsingDefine)), old(isParsingDefine))
      decreases |source.tokens| - pos, 1
    {
      if isParsingDefine {
        return Err(Syntax(NestedDefinition, Current()));
      }
      isParsingDefine := true;
      var ok := Consume(Symbol);
      var signature := ParseSignature();
      if signature.Err? {
        return Err(signature.error);
      }
      var body := ParseUntilClose();
      if body.Err? {
        return Err(body.error);
      }
      isParsingDefine := false;
      var g := signature.value;
      r := Ok(FunctionDeclarationNode(g.name, g.parameters, g.returnType, body.value));
    }

    /** parseFunctionCall */
    method ParseFunctionCall() returns (r: Result<Node, ParseError>)
      requires Valid()
      modifies this
      ensures Valid()
      ensures Follows(r, pos, isParsingDefine, CallAt(source, old(pos), old(isParsingDefine)), old(isParsingDefine))
      decreases |source.tokens| - pos, 1
    {
      if Current().kind != Symbol {
        return Err(Syntax(CalleeExpected, Current()));
      }
      var funcName := Current().value;
      var ok := Consume(Symbol);
      var arguments := ParseUntilClose();
      if arguments.Err? {
        return Err(arguments.error);
      }
      r := Ok(FunctionCallNode(funcName, arguments.value));
    }

    /** The loop that parses expressions up to a closing parenthesis, as
        parseForIteration, parseWhileIteration, parseDefine and
        parseFunctionCall each write it. */
    method ParseUntilClose() returns (r: Result<seq<Node>, ParseError>)
      requires Valid()
      modifies this
      ensures Valid()
      ensures Follows(r, pos, isParsingDefine, UntilClose(source, old(pos), old(isParsingDefine)), old(isParsingDefine))
      decreases |source.tokens| - pos, 4
    {
      ghost var expected := UntilClose(source, pos, isParsingDefine);
      var nodes: seq<Node> := [];
      PrependDoneNothing(expected);
      while Current().kind != CloseParen
        invariant Valid() && isParsingDefine == old(isParsingDefine)
        invariant expected == PrependDone(nodes, UntilClose(source, pos, isParsingDefine))
        decreases |source.tokens| - pos
      {
        var e := ParseExpression();
        if e.Err? {
          return Err(e.error);
        }
        PrependDoneSnoc(nodes, e.value, UntilClose(source, pos, isParsingDefine));
        nodes := nodes + [e.value];
      }
      assert nodes + [] == nodes;
      return Ok(nodes);
    }
  }

  /** The outcome of reading a program text: its tree, the first error, or
      a lexer that never returns. */
  datatype Reading = Tree(script: Node) | Rejected(error: ParseError) | LexerHangs

  /** The text tokenized, then parsed from the first token with the flag
      cleared. */
  function ReadSource(text: string, stod: string -> Option<real>): Reading {
    match TokensFrom(text, Start)
    case Hangs(_) => LexerHangs
    case Finished(ts) =>
      match ScriptAt(Input(ts, stod), 0, false)
      case Ok(p) => Tree(ScriptNode(p.value))
      case Err(e) => Rejected(e)
  }

  /** A Lexer over the text and a Parser over its tokens, as a program is
      read. */
  method ParseSource(text: string, stod: string -> Option<real>) returns (r: Reading)
    ensures r == ReadSource(text, stod)
  {
    var tokens := Tokenize(text);
    if tokens.Hangs? {
      return LexerHangs;
    }
    var parser := new Parser(tokens.tokens, stod);
    var tree := parser.Parse();
    r := if tree.Ok? then Tree(tree.value) else Rejected(tree.error);
  }
}
