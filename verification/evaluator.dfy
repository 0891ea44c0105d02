/** The tree-walking evaluator of MyLisp/ASTEvaluator.cpp together with
    Function::execute (MyLisp/Function.cpp) and
    UserDefinedFunction::doExecute (MyLisp/UserDefinedFunction.cpp), which
    call each other.

    Eval and its companions are the reference meaning: they map a node and
    the chain of scopes (root first, current last) to a result and the new
    chain. The methods below them run on Environment objects and are proved
    to compute exactly that. Loops and recursion of the interpreted program
    need not end, so every evaluation carries a fuel bound and reports
    OutOfFuel when it is used up. */
module Evaluator {
  import opened Wrappers
  import opened TypeSystem
  import opened Ast
  import opened Functions
  import opened Scopes

  /** What the interpreter relies on but the model does not define: the
      mapping from a type symbol such as `Integer` to a value type and
      variadic flag, and the behaviour of built-in functions (which do not
      touch the environment). */
  datatype Host = Host(
    resolveType: string -> (ValueType, bool),
    builtin: (string, seq<Value>) -> Result<Value, string>)

  datatype EvalError =
    | UndefinedSymbol(name: string)
    | UndefinedVariable(name: string)
    | UndefinedFunction(name: string)
    | NotABool                       // std::get<bool> of another alternative
    | ForBoundsNotIntegers
    | IndexOverflow                  // i += step leaves the range of long
    | UnknownNodeType
    | InvalidArguments(reason: ValidationError)
    | UnrepresentableVariadic
    | BuiltinFailed(message: string)
    | OutOfFuel

  /** A result together with the chain of scopes after the evaluation. */
  datatype Outcome<T> = Outcome(result: Result<T, EvalError>, frames: seq<Scope>)

  /** A function declaration records `returnType_->getType()` as its result
      type: the node type SYMBOL, whose ordinal is that of INTEGER. */
  const DeclaredReturnType: ValueType := ValueType.INTEGER

  /** The parameter list handed to a new UserDefinedFunction. */
  function ResolveParams(h: Host, params: seq<Parameter>): (r: seq<FunctionParameter>)
    ensures |r| == |params|
    ensures forall i :: 0 <= i < |params| ==>
      r[i] == FunctionParameter(params[i].name, h.resolveType(params[i].typeName).0, h.resolveType(params[i].typeName).1)
  {
    seq(|params|, i requires 0 <= i < |params| =>
      FunctionParameter(params[i].name, h.resolveType(params[i].typeName).0, h.resolveType(params[i].typeName).1))
  }

  /** ASTEvaluator::evaluate: one unit of fuel per node. */
  function Eval(h: Host, node: Node, frames: seq<Scope>, fuel: nat): (o: Outcome<Value>)
    requires |frames| > 0
    ensures |o.frames| == |frames|
    decreases fuel, 0, 0
  {
    if fuel == 0 then Outcome(Err(OutOfFuel), frames)
    else EvalNode(h, node, frames, fuel - 1)
  }

  /** The switch of evaluate on the node type; subexpressions get `fuel`. */
  function EvalNode(h: Host, node: Node, frames: seq<Scope>, fuel: nat): (o: Outcome<Value>)
    requires |frames| > 0
    ensures |o.frames| == |frames|
    decreases fuel, 5, 0
  {
    match node
      case SymbolNode(name) =>
        (match LookupVariable(frames, name)
         case Some(v) => Outcome(Ok(v), frames)
         case None => Outcome(Err(UndefinedSymbol(name)), frames))
      case IntegerNode(x) => Outcome(Ok(Integer(x)), frames)
      case FloatNode(x) => Outcome(Ok(Double(x)), frames)
      case BooleanNode(b) => Outcome(Ok(Bool(b)), frames)
      case StringNode(s) => Outcome(Ok(Str(s)), frames)
      case VariableDeclarationNode(name, _, value) => EvalDeclaration(h, name, value, frames, fuel)
      case VariableAssignmentNode(name, value) => EvalAssignment(h, name, value, frames, fuel)
      case FunctionDeclarationNode(name, params, _, body) =>
        var f := UserDefinedFunction(name, ResolveParams(h, params), DeclaredReturnType, body);
        Outcome(Ok(DefaultValue), BindFunction(frames, name, f))
      case FunctionCallNode(name, args) => EvalCall(h, name, args, frames, fuel)
      case IfNode(c, t, e) => EvalIf(h, c, t, e, frames, fuel)
      case ForIterationNode(index, start, end, step, body) => EvalFor(h, index, start, end, step, body, frames, fuel)
      case WhileIterationNode(c, body) => WhileLoop(h, c, body, DefaultValue, frames, fuel)
      case ScriptNode(_) => Outcome(Err(UnknownNodeType), frames)
  }

  /** VARIABLE_DECLARATION: evaluate the value, bind it in the current
      scope. The declared type is not looked at. */
  function EvalDeclaration(h: Host, name: string, value: Node, frames: seq<Scope>, fuel: nat): (o: Outcome<Value>)
    requires |frames| > 0
    ensures |o.frames| == |frames|
    decreases fuel, 1, 0
  {
    var ov := Eval(h, value, frames, fuel);
    match ov.result
    case Err(_) => ov
    case Ok(v) => Outcome(Ok(DefaultValue), BindVariable(ov.frames, name, v))
  }

  /** VARIABLE_ASSIGNMENT: evaluate the value, then overwrite the binding
      wherever the lookup finds it. */
  function EvalAssignment(h: Host, name: string, value: Node, frames: seq<Scope>, fuel: nat): (o: Outcome<Value>)
    requires |frames| > 0
    ensures |o.frames| == |frames|
    decreases fuel, 1, 0
  {
    var ov := Eval(h, value, frames, fuel);
    match ov.result
    case Err(_) => ov
    case Ok(v) => Assign(ov.frames, name, v)
  }

  /** The write of an assignment: overwrite the innermost binding of the
      name; an error, and no change, when no scope binds it. */
  function Assign(frames: seq<Scope>, name: string, v: Value): (o: Outcome<Value>)
    ensures |o.frames| == |frames|
  {
    match FindVariable(frames, name)
    case None => Outcome(Err(UndefinedVariable(name)), frames)
    case Some(k) => Outcome(Ok(DefaultValue), BindVariableAt(frames, k, name, v))
  }

  /** A condition of IF or WHILE: `std::get<bool>` of its value, which
      throws for any other alternative. */
  function EvalCondition(h: Host, c: Node, frames: seq<Scope>, fuel: nat): (o: Outcome<bool>)
    requires |frames| > 0
    ensures |o.frames| == |frames|
    decreases fuel, 1, 0
  {
    var oc := Eval(h, c, frames, fuel);
    match oc.result
    case Err(e) => Outcome(Err(e), oc.frames)
    case Ok(cv) => if cv.Bool? then Outcome(Ok(cv.b), oc.frames) else Outcome(Err(NotABool), oc.frames)
  }

  /** IF: evaluate the condition, then exactly one branch. */
  function EvalIf(h: Host, c: Node, t: Node, e: Node, frames: seq<Scope>, fuel: nat): (o: Outcome<Value>)
    requires |frames| > 0
    ensures |o.frames| == |frames|
    decreases fuel, 2, 0
  {
    var oc := EvalCondition(h, c, frames, fuel);
    match oc.result
    case Err(err) => Outcome(Err(err), oc.frames)
    case Ok(b) => Eval(h, if b then t else e, oc.frames, fuel)
  }

  /** The statements of a body in order, each result replacing the last;
      `result` is what an empty remainder returns. */
  function EvalBody(h: Host, body: seq<Node>, result: Value, frames: seq<Scope>, fuel: nat): (o: Outcome<Value>)
    requires |frames| > 0
    ensures |o.frames| == |frames|
    decreases fuel, 1, |body|
  {
    if body == [] then Outcome(Ok(result), frames)
    else
      var o1 := Eval(h, body[0], frames, fuel);
      match o1.result
      case Err(_) => o1
      case Ok(v) => EvalBody(h, body[1..], v, o1.frames, fuel)
  }

  /** The arguments of a call, left to right, appended to `done`. */
  function EvalArgs(h: Host, args: seq<Node>, done: seq<Value>, frames: seq<Scope>, fuel: nat): (o: Outcome<seq<Value>>)
    requires |frames| > 0
    ensures |o.frames| == |frames|
    ensures o.result.Ok? ==> |o.result.value| == |done| + |args| && o.result.value[..|done|] == done
    decreases fuel, 1, |args|
  {
    if args == [] then Outcome(Ok(done), frames)
    else
      var o1 := Eval(h, args[0], frames, fuel);
      match o1.result
      case Err(e) => Outcome(Err(e), o1.frames)
      case Ok(v) =>
        var rest := EvalArgs(h, args[1..], done + [v], o1.frames, fuel);
        assert rest.result.Ok? ==> rest.result.value[..|done|] == (done + [v])[..|done|];
        rest
  }

  /** FOR_ITERATION: evaluate start, end and step in that order; all three
      must be integers. */
  function EvalFor(h: Host, index: string, start: Node, end: Node, step: Node, body: seq<Node>,
                   frames: seq<Scope>, fuel: nat): (o: Outcome<Value>)
    requires |frames| > 0
    ensures |o.frames| == |frames|
    decreases fuel, 3, 0
  {
    var os := Eval(h, start, frames, fuel);
    if os.result.Err? then os
    else
      var oe := Eval(h, end, os.frames, fuel);
      if oe.result.Err? then oe
      else
        var ot := Eval(h, step, oe.frames, fuel);
        if ot.result.Err? then ot
        else if !(os.result.value.Integer? && oe.result.value.Integer? && ot.result.value.Integer?) then
          Outcome(Err(ForBoundsNotIntegers), ot.frames)
        else
          ForLoop(h, index, os.result.value.i, oe.result.value.i, ot.result.value.i, body, DefaultValue, ot.frames, fuel)
  }

  /** The for loop itself: while i < end, bind the index in the current
      scope, run the body, then add the step. */
  function ForLoop(h: Host, index: string, i: int, end: int, step: int, body: seq<Node>, result: Value,
                   frames: seq<Scope>, fuel: nat): (o: Outcome<Value>)
    requires |frames| > 0
    ensures |o.frames| == |frames|
    decreases fuel, 2, 0
  {
    if i >= end then Outcome(Ok(result), frames)
    else if fuel == 0 then Outcome(Err(OutOfFuel), frames)
    else
      var ob := EvalBody(h, body, result, BindVariable(frames, index, Integer(i)), fuel - 1);
      match ob.result
      case Err(_) => ob
      case Ok(v) =>
        if !IsLong(i + step) then Outcome(Err(IndexOverflow), ob.frames)
        else ForLoop(h, index, i + step, end, step, body, v, ob.frames, fuel - 1)
  }

  /** WHILE_ITERATION: re-evaluate the condition before each pass. */
  function WhileLoop(h: Host, c: Node, body: seq<Node>, result: Value, frames: seq<Scope>, fuel: nat): (o: Outcome<Value>)
    requires |frames| > 0
    ensures |o.frames| == |frames|
    decreases fuel, 2, 0
  {
    if fuel == 0 then Outcome(Err(OutOfFuel), frames)
    else WhilePass(h, c, body, result, EvalCondition(h, c, frames, fuel - 1), fuel - 1)
  }

  /** The rest of a pass of the while loop once its condition `oc` is
      evaluated: stop on an error or on false, else run the body and loop. */
  function WhilePass(h: Host, c: Node, body: seq<Node>, result: Value, oc: Outcome<bool>, fuel: nat): (o: Outcome<Value>)
    requires |oc.frames| > 0
    ensures |o.frames| == |oc.frames|
    decreases fuel, 3, 0
  {
    match oc.result
    case Err(err) => Outcome(Err(err), oc.frames)
    case Ok(b) =>
      if !b then Outcome(Ok(result), oc.frames)
      else
        var ob := EvalBody(h, body, result, oc.frames, fuel);
        match ob.result
        case Err(_) => ob
        case Ok(v) => WhileLoop(h, c, body, v, ob.frames, fuel)
  }

  /** FUNCTION_CALL: resolve the function first, then evaluate the
      arguments left to right, then execute. */
  function EvalCall(h: Host, name: string, args: seq<Node>, frames: seq<Scope>, fuel: nat): (o: Outcome<Value>)
    requires |frames| > 0
    ensures |o.frames| == |frames|
    decreases fuel, 4, 0
  {
    match LookupFunction(frames, name)
    case None => Outcome(Err(UndefinedFunction(name)), frames)
    case Some(f) =>
      var oa := EvalArgs(h, args, [], frames, fuel);
      match oa.result
      case Err(e) => Outcome(Err(e), oa.frames)
      case Ok(vs) => Execute(h, f, vs, oa.frames, fuel)
  }

  /** Function::execute: validate, then run. */
  function Execute(h: Host, f: Function, args: seq<Value>, frames: seq<Scope>, fuel: nat): (o: Outcome<Value>)
    requires |frames| > 0
    ensures |o.frames| == |frames|
    decreases fuel, 3, 0
  {
    match ValidateArguments(f.params, args)
    case Err(e) => Outcome(Err(InvalidArguments(e)), frames)
    case Ok(_) => DoExecute(h, f, args, frames, fuel)
  }

  /** doExecute. A user function runs its body in a fresh scope whose parent
      is the caller's current scope, with the arguments bound there; the
      result is the last statement's value, and the declared result type is
      not checked. */
  function DoExecute(h: Host, f: Function, args: seq<Value>, frames: seq<Scope>, fuel: nat): (o: Outcome<Value>)
    requires |frames| > 0
    requires ValidateArguments(f.params, args).Ok?
    ensures |o.frames| == |frames|
    decreases fuel, 2, 0
  {
    match f
    case BuiltinFunction(name, _, _) =>
      (match h.builtin(name, args)
       case Ok(v) => Outcome(Ok(v), frames)
       case Err(m) => Outcome(Err(BuiltinFailed(m)), frames))
    case UserDefinedFunction(_, params, _, body) =>
      match BindArguments(params, args)
      case None => Outcome(Err(UnrepresentableVariadic), frames)
      case Some(locals) =>
        var ob := EvalBody(h, body, DefaultValue, frames + [Scope(locals, map[])], fuel);
        Outcome(ob.result, ob.frames[..|frames|])
  }
}
