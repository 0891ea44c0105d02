/** The evaluator as the source runs it: methods that walk the tree and
    update Environment objects in place. Each is proved to agree with its
    reference function in Evaluator, result and resulting scopes alike. */
module Interpreter {
  import opened Wrappers
  import opened TypeSystem
  import opened Ast
  import opened Functions
  import opened Scopes
  import opened Evaluator

  /** ASTEvaluator::evaluate, one unit of fuel per node. The cases of its
      switch that evaluate subexpressions have a method each. */
  method Evaluate(h: Host, node: Node, env: Environment, fuel: nat) returns (r: Result<Value, EvalError>)
    requires env.Valid()
    modifies env.Repr
    ensures Outcome(r, env.Frames()) == Eval(h, node, old(env.Frames()), fuel)
    decreases fuel, 0, 0
  {
    if fuel == 0 {
      return Err(OutOfFuel);
    }
    r := EvaluateNode(h, node, env, fuel - 1);
  }

  /** The switch of evaluate on the node type. */
  method EvaluateNode(h: Host, node: Node, env: Environment, fuel: nat) returns (r: Result<Value, EvalError>)
    requires env.Valid()
    modifies env.Repr
    ensures Outcome(r, env.Frames()) == EvalNode(h, node, old(env.Frames()), fuel)
    decreases fuel, 5, 0
  {
    match node {
      case SymbolNode(name) =>
        var owner := env.GetVariable(name);
        if owner == null {
          r := Err(UndefinedSymbol(name));
        } else {
          r := Ok(owner.variables[name]);
        }
      case IntegerNode(x) => r := Ok(Integer(x));
      case FloatNode(x) => r := Ok(Double(x));
      case BooleanNode(b) => r := Ok(Bool(b));
      case StringNode(s) => r := Ok(Str(s));
      case VariableDeclarationNode(_, _, _) => r := EvaluateDeclaration(h, node, env, fuel);
      case VariableAssignmentNode(_, _) => r := EvaluateAssignment(h, node, env, fuel);
      case FunctionDeclarationNode(name, params, _, body) =>
        env.SetFunction(name, UserDefinedFunction(name, ResolveParams(h, params), DeclaredReturnType, body));
        r := Ok(DefaultValue);
      case FunctionCallNode(_, _) => r := EvaluateCall(h, node, env, fuel);
      case IfNode(_, _, _) => r := EvaluateIf(h, node, env, fuel);
      case ForIterationNode(_, _, _, _, _) => r := EvaluateFor(h, node, env, fuel);
      case WhileIterationNode(c, body) => r := RunWhile(h, c, body, env, fuel);
      case ScriptNode(_) => r := Err(UnknownNodeType);
    }
  }

  /** VARIABLE_DECLARATION: evaluate the value, then setVariable in the
      current environment. */
  method EvaluateDeclaration(h: Host, node: Node, env: Environment, fuel: nat) returns (r: Result<Value, EvalError>)
    requires env.Valid() && node.VariableDeclarationNode?
    modifies env.Repr
    ensures Outcome(r, env.Frames()) == EvalNode(h, node, old(env.Frames()), fuel)
    decreases fuel, 4, 0
  {
    r := Evaluate(h, node.value, env, fuel);
    if r.Ok? {
      env.SetVariable(node.variableName, r.value);
      r := Ok(DefaultValue);
    }
  }

  /** VARIABLE_ASSIGNMENT: evaluate the value, then write through the
      binding getVariable finds. */
  method EvaluateAssignment(h: Host, node: Node, env: Environment, fuel: nat) returns (r: Result<Value, EvalError>)
    requires env.Valid() && node.VariableAssignmentNode?
    modifies env.Repr
    ensures Outcome(r, env.Frames()) == EvalNode(h, node, old(env.Frames()), fuel)
    decreases fuel, 4, 0
  {
    r := Evaluate(h, node.value, env, fuel);
    if r.Ok? {
      r := AssignVariable(node.variableName, r.value, env);
    }
  }

  /** The write of VARIABLE_ASSIGNMENT through the pointer getVariable
      returns; an unknown name is an error. */
  method AssignVariable(name: string, v: Value, env: Environment) returns (r: Result<Value, EvalError>)
    requires env.Valid()
    modifies env.Repr
    ensures Outcome(r, env.Frames()) == Assign(old(env.Frames()), name, v)
  {
    var found := env.WriteVariable(name, v);
    if found {
      r := Ok(DefaultValue);
    } else {
      r := Err(UndefinedVariable(name));
    }
  }

  /** FUNCTION_CALL: look the function up, evaluate the arguments left to
      right, execute. */
  method EvaluateCall(h: Host, node: Node, env: Environment, fuel: nat) returns (r: Result<Value, EvalError>)
    requires env.Valid() && node.FunctionCallNode?
    modifies env.Repr
    ensures Outcome(r, env.Frames()) == EvalNode(h, node, old(env.Frames()), fuel)
    decreases fuel, 4, 0
  {
    var func := env.GetFunction(node.functionName);
    if func.None? {
      return Err(UndefinedFunction(node.functionName));
    }
    var arguments := EvaluateArgs(h, node.arguments, env, fuel);
    if arguments.Err? {
      return Err(arguments.error);
    }
    r := Execute(h, func.value, arguments.value, env, fuel);
  }

  /** IF: the condition, then one branch. */
  method EvaluateIf(h: Host, node: Node, env: Environment, fuel: nat) returns (r: Result<Value, EvalError>)
    requires env.Valid() && node.IfNode?
    modifies env.Repr
    ensures Outcome(r, env.Frames()) == EvalNode(h, node, old(env.Frames()), fuel)
    decreases fuel, 4, 0
  {
    var cond := EvaluateCondition(h, node.condition, env, fuel);
    if cond.Err? {
      return Err(cond.error);
    }
    var branch := if cond.value then node.thenBranch else node.elseBranch;
    r := Evaluate(h, branch, env, fuel);
  }

  /** FOR_ITERATION: start, end and step in that order, then the loop. */
  method EvaluateFor(h: Host, node: Node, env: Environment, fuel: nat) returns (r: Result<Value, EvalError>)
    requires env.Valid() && node.ForIterationNode?
    modifies env.Repr
    ensures Outcome(r, env.Frames()) == EvalNode(h, node, old(env.Frames()), fuel)
    decreases fuel, 4, 0
  {
    var startValue := Evaluate(h, node.start, env, fuel);
    if startValue.Err? {
      return startValue;
    }
    var endValue := Evaluate(h, node.end, env, fuel);
    if endValue.Err? {
      return endValue;
    }
    var stepValue := Evaluate(h, node.step, env, fuel);
    if stepValue.Err? {
      return stepValue;
    }
    if !(startValue.value.Integer? && endValue.value.Integer? && stepValue.value.Integer?) {
      return Err(ForBoundsNotIntegers);
    }
    r := RunFor(h, node.index, startValue.value.i, endValue.value.i, stepValue.value.i, node.body, env, fuel);
  }

  /** The condition of IF and WHILE, read with std::get<bool>. */
  method EvaluateCondition(h: Host, c: Node, env: Environment, fuel: nat) returns (r: Result<bool, EvalError>)
    requires env.Valid()
    modifies env.Repr
    ensures Outcome(r, env.Frames()) == EvalCondition(h, c, old(env.Frames()), fuel)
    decreases fuel, 1, 0
  {
    var cv := Evaluate(h, c, env, fuel);
    if cv.Err? {
      return Err(cv.error);
    }
    if !cv.value.Bool? {
      return Err(NotABool);
    }
    return Ok(cv.value.b);
  }

  /** The statement loop shared by loop bodies and function bodies: each
      result replaces the last, starting from `result`. */
  method EvaluateBody(h: Host, body: seq<Node>, result: Value, env: Environment, fuel: nat)
    returns (r: Result<Value, EvalError>)
    requires env.Valid()
    modifies env.Repr
    ensures Outcome(r, env.Frames()) == EvalBody(h, body, result, old(env.Frames()), fuel)
    decreases fuel, 1, |body|
  {
    var last := result;
    var i := 0;
    while i < |body|
      invariant i <= |body|
      invariant EvalBody(h, body[i..], last, env.Frames(), fuel) == EvalBody(h, body, result, old(env.Frames()), fuel)
    {
      assert body[i..][1..] == body[i + 1..];
      var v := Evaluate(h, body[i], env, fuel);
      if v.Err? {
        return v;
      }
      last := v.value;
      i := i + 1;
    }
    return Ok(last);
  }

  /** The argument loop of FUNCTION_CALL, left to right. */
  method EvaluateArgs(h: Host, args: seq<Node>, env: Environment, fuel: nat)
    returns (r: Result<seq<Value>, EvalError>)
    requires env.Valid()
    modifies env.Repr
    ensures Outcome(r, env.Frames()) == EvalArgs(h, args, [], old(env.Frames()), fuel)
    decreases fuel, 1, |args|
  {
    var values := [];
    var i := 0;
    while i < |args|
      invariant i <= |args|
      invariant EvalArgs(h, args[i..], values, env.Frames(), fuel) == EvalArgs(h, args, [], old(env.Frames()), fuel)
    {
      assert args[i..][1..] == args[i + 1..];
      var v := Evaluate(h, args[i], env, fuel);
      if v.Err? {
        return Err(v.error);
      }
      values := values + [v.value];
      i := i + 1;
    }
    return Ok(values);
  }

  /** The counting loop of FOR_ITERATION: bind the index in the current
      environment, run the body, add the step. */
  method RunFor(h: Host, index: string, start: int, end: int, step: int, body: seq<Node>,
                env: Environment, fuel: nat) returns (r: Result<Value, EvalError>)
    requires env.Valid()
    modifies env.Repr
    ensures Outcome(r, env.Frames()) == ForLoop(h, index, start, end, step, body, DefaultValue, old(env.Frames()), fuel)
    decreases fuel, 2, 0
  {
    ghost var expected := ForLoop(h, index, start, end, step, body, DefaultValue, env.Frames(), fuel);
    var result := DefaultValue;
    var i := start;
    var f: nat := fuel;
    while i < end
      invariant f <= fuel
      invariant ForLoop(h, index, i, end, step, body, result, env.Frames(), f) == expected
      decreases f
    {
      if f == 0 {
        return Err(OutOfFuel);
      }
      env.SetVariable(index, Integer(i));
      var v := EvaluateBody(h, body, result, env, f - 1);
      if v.Err? {
        return v;
      }
      result := v.value;
      if !IsLong(i + step) {
        return Err(IndexOverflow);
      }
      i := i + step;
      f := f - 1;
    }
    return Ok(result);
  }

  /** The loop of WHILE_ITERATION: the condition before every pass. */
  method RunWhile(h: Host, c: Node, body: seq<Node>, env: Environment, fuel: nat)
    returns (r: Result<Value, EvalError>)
    requires env.Valid()
    modifies env.Repr
    ensures Outcome(r, env.Frames()) == WhileLoop(h, c, body, DefaultValue, old(env.Frames()), fuel)
    decreases fuel, 2, 0
  {
    ghost var expected := WhileLoop(h, c, body, DefaultValue, env.Frames(), fuel);
    var result := DefaultValue;
    var f: nat := fuel;
    while f > 0
      invariant f <= fuel
      invariant WhileLoop(h, c, body, result, env.Frames(), f) == expected
      decreases f
    {
      var cond := EvaluateCondition(h, c, env, f - 1);
      if cond.Err? {
        return Err(cond.error);
      }
      if !cond.value {
        return Ok(result);
      }
      r := EvaluateBody(h, body, result, env, f - 1);
      if r.Err? {
        return;
      }
      result := r.value;
      f := f - 1;
    }
    return Err(OutOfFuel);
  }

  /** Function::execute */
  method Execute(h: Host, f: Function, args: seq<Value>, env: Environment, fuel: nat)
    returns (r: Result<Value, EvalError>)
    requires env.Valid()
    modifies env.Repr
    ensures Outcome(r, env.Frames()) == Evaluator.Execute(h, f, args, old(env.Frames()), fuel)
    decreases fuel, 3, 0
  {
    var valid := Validate(f.params, args);
    if valid.Err? {
      return Err(InvalidArguments(valid.error));
    }
    r := DoExecute(h, f, args, env, fuel);
  }

  /** doExecute: a built-in is handed to the host; a user function runs in
      a new environment whose parent is the caller's. */
  method DoExecute(h: Host, f: Function, args: seq<Value>, env: Environment, fuel: nat)
    returns (r: Result<Value, EvalError>)
    requires env.Valid()
    requires ValidateArguments(f.params, args).Ok?
    modifies env.Repr
    ensures Outcome(r, env.Frames()) == Evaluator.DoExecute(h, f, args, old(env.Frames()), fuel)
    decreases fuel, 2, 1
  {
    match f {
      case BuiltinFunction(name, _, _) =>
        var b := h.builtin(name, args);
        r := if b.Ok? then Ok(b.value) else Err(BuiltinFailed(b.error));
      case UserDefinedFunction(_, _, _, _) =>
        r := RunUserFunction(h, f, args, env, fuel);
    }
  }

  /** UserDefinedFunction::doExecute: bind the arguments in a local
      environment whose parent is the caller's, then run the body there. */
  method RunUserFunction(h: Host, f: Function, args: seq<Value>, env: Environment, fuel: nat)
    returns (r: Result<Value, EvalError>)
    requires env.Valid()
    requires f.UserDefinedFunction? && ValidateArguments(f.params, args).Ok?
    modifies env.Repr
    ensures Outcome(r, env.Frames()) == Evaluator.DoExecute(h, f, args, old(env.Frames()), fuel)
    decreases fuel, 2, 0
  {
    var localEnv := new Environment(env);
    var bound := BindParameters(f.params, args, localEnv);
    if !bound {
      return Err(UnrepresentableVariadic);
    }
    assert localEnv.Frames() == old(env.Frames()) + [Scope(BindArguments(f.params, args).value, map[])];
    r := EvaluateBody(h, f.body, DefaultValue, localEnv, fuel);
    localEnv.FramesPrefix(env);
  }

  /** The binding loop of doExecute on a fresh local environment: each
      fixed parameter to its argument, then the variadic parameter to the
      pack of the remaining ones. False when that pack has no Value to
      live in. */
  method BindParameters(params: seq<FunctionParameter>, args: seq<Value>, local: Environment) returns (bound: bool)
    requires local.Valid() && local.variables == map[]
    requires ValidateArguments(params, args).Ok?
    modifies local
    ensures bound == BindArguments(params, args).Some?
    ensures bound ==> local.variables == BindArguments(params, args).value
    ensures local.functions == old(local.functions)
  {
    var numFixed := FixedCount(params);
    var i := 0;
    while i < numFixed
      invariant i <= numFixed
      invariant local.variables == BindFixed(params, args, i) && local.functions == old(local.functions)
    {
      local.SetVariable(params[i].name, args[i]);
      i := i + 1;
    }
    if LastIsVariadic(params) {
      var last := params[|params| - 1];
      var rest := args[numFixed..];
      assert forall j :: 0 <= j < |rest| ==> IsType(rest[j], last.typ) by {
        forall j | 0 <= j < |rest| ensures IsType(rest[j], last.typ) {
          assert rest[j] == args[numFixed + j];
        }
      }
      var packed := PackVariadic(last.typ, rest);
      if packed.None? {
        return false;
      }
      local.SetVariable(last.name, packed.value);
    }
    return true;
  }
}
