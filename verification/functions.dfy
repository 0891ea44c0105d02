/** Callable functions of MyLisp/Function.cpp: the parameter list, the
    argument check run before every call (validateArguments), and the
    parameter binding of UserDefinedFunction::doExecute. */
module Functions {
  import opened Wrappers
  import opened TypeSystem
  import Ast

  /** FunctionParameter: name, declared type and the variadic flag. */
  datatype FunctionParameter = FunctionParameter(name: string, typ: ValueType, isVariadic: bool)

  /** A function object: its parameters (getParams) and declared result type
      (getResultType), and for a user definition its name and body. A
      built-in is known by name; its behaviour is supplied by the host. */
  datatype Function =
    | UserDefinedFunction(functionName: string, params: seq<FunctionParameter>, returnType: ValueType, body: seq<Ast.Node>)
    | BuiltinFunction(builtinName: string, params: seq<FunctionParameter>, returnType: ValueType)

  /** The runtime_error messages of validateArguments. */
  datatype ValidationError =
    | NoArgumentsExpected
    | NotEnoughArguments
    | TooManyArguments
    | ArgumentTypeMismatch
    | VariadicTypeMismatch

  /** Only the last parameter's flag is ever looked at. */
  predicate LastIsVariadic(params: seq<FunctionParameter>) {
    |params| > 0 && params[|params| - 1].isVariadic
  }

  /** numFixedParams: the parameters bound one to one. */
  function FixedCount(params: seq<FunctionParameter>): (k: nat)
    ensures k <= |params|
    ensures k == |params| || (k == |params| - 1 && LastIsVariadic(params))
  {
    if LastIsVariadic(params) then |params| - 1 else |params|
  }

  /** The checks of validateArguments once the parameter list is known not
      to be empty, in the order the source makes them. */
  function CheckNonEmpty(params: seq<FunctionParameter>, args: seq<Value>): Result<(), ValidationError>
    requires |params| > 0
  {
    var k := FixedCount(params);
    var last := params[|params| - 1];
    if |args| < k then Err(NotEnoughArguments)
    else if !last.isVariadic && |args| > |params| then Err(TooManyArguments)
    else if exists i :: 0 <= i < k && !IsType(args[i], params[i].typ) then Err(ArgumentTypeMismatch)
    else if last.isVariadic && exists i :: k <= i < |args| && !IsType(args[i], last.typ) then Err(VariadicTypeMismatch)
    else Ok(())
  }

  /** What validateArguments does as written: with no parameters it rejects
      any argument, and with no arguments either it goes on to read the last
      element of the empty parameter vector, which is undefined behaviour. */
  datatype Verdict = Accepted | Rejected(error: ValidationError) | Undefined

  function ValidateAsWritten(params: seq<FunctionParameter>, args: seq<Value>): (v: Verdict)
    ensures v.Undefined? <==> params == [] && args == []
  {
    if params == [] && args != [] then Rejected(NoArgumentsExpected)
    else if params == [] then Undefined
    else match CheckNonEmpty(params, args)
      case Ok(_) => Accepted
      case Err(e) => Rejected(e)
  }

  /** A function without parameters can never be called as written. */
  lemma ZeroParameterCallUndefined()
    ensures ValidateAsWritten([], []) == Undefined
    ensures forall args: seq<Value> :: ValidateAsWritten([], args) != Accepted
  {
  }

  /** validateArguments as intended: a function without parameters takes
      exactly the empty argument list; otherwise the checks of the source. */
  function ValidateArguments(params: seq<FunctionParameter>, args: seq<Value>): Result<(), ValidationError> {
    if params == [] then (if args == [] then Ok(()) else Err(NoArgumentsExpected))
    else CheckNonEmpty(params, args)
  }

  /** Function::validateArguments with its two loops, as intended for an
      empty parameter list. */
  method Validate(params: seq<FunctionParameter>, args: seq<Value>) returns (r: Result<(), ValidationError>)
    ensures r == ValidateArguments(params, args)
  {
    if params == [] {
      if args != [] {
        return Err(NoArgumentsExpected);
      }
      return Ok(());
    }
    var last := params[|params| - 1];
    var numFixed := if last.isVariadic then |params| - 1 else |params|;
    if |args| < numFixed {
      return Err(NotEnoughArguments);
    }
    if !last.isVariadic && |args| > |params| {
      return Err(TooManyArguments);
    }
    var i := 0;
    while i < numFixed
      invariant i <= numFixed
      invariant forall j :: 0 <= j < i ==> IsType(args[j], params[j].typ)
    {
      if !IsType(args[i], params[i].typ) {
        return Err(ArgumentTypeMismatch);
      }
      i := i + 1;
    }
    if last.isVariadic {
      i := numFixed;
      while i < |args|
        invariant numFixed <= i <= |args|
        invariant forall j :: numFixed <= j < i ==> IsType(args[j], last.typ)
      {
        if !IsType(args[i], last.typ) {
          return Err(VariadicTypeMismatch);
        }
        i := i + 1;
      }
    }
    return Ok(());
  }

  /** The intended check differs from the written one only where the written
      one is undefined. */
  lemma ValidateAgreesWhereDefined(params: seq<FunctionParameter>, args: seq<Value>)
    requires ValidateAsWritten(params, args) != Undefined
    ensures ValidateAsWritten(params, args) == Accepted <==> ValidateArguments(params, args).Ok?
    ensures ValidateAsWritten(params, args).Rejected? ==>
      ValidateArguments(params, args) == Err(ValidateAsWritten(params, args).error)
  {
  }

  /** A signature as a pattern, read parameter by parameter: a variadic last
      parameter takes any number of arguments of its type, every other
      parameter exactly one argument of its own type. */
  predicate Matches(params: seq<FunctionParameter>, args: seq<Value>)
    decreases |params|
  {
    if params == [] then args == []
    else if |params| == 1 && params[0].isVariadic then
      forall i :: 0 <= i < |args| ==> IsType(args[i], params[0].typ)
    else
      |args| > 0 && IsType(args[0], params[0].typ) && Matches(params[1..], args[1..])
  }

  /** validateArguments accepts exactly the argument lists that match the
      signature. */
  lemma {:induction false} ValidateIffMatches(params: seq<FunctionParameter>, args: seq<Value>)
    ensures ValidateArguments(params, args).Ok? <==> Matches(params, args)
    decreases |params|
  {
    if params == [] || (|params| == 1 && params[0].isVariadic) {
    } else if |params| == 1 {
      if |args| > 0 {
        assert params[1..] == [];
      }
    } else {
      var rest := params[1..];
      assert FixedCount(rest) == FixedCount(params) - 1;
      assert rest[|rest| - 1] == params[|params| - 1];
      if |args| > 0 {
        var tail := args[1..];
        ValidateIffMatches(rest, tail);
        var k := FixedCount(params);
        if |args| >= k && (LastIsVariadic(params) || |args| <= |params|) {
        assert (exists i :: 0 <= i < k && !IsType(args[i], params[i].typ)) <==>
               !IsType(args[0], params[0].typ) || exists i :: 0 <= i < k - 1 && !IsType(tail[i], rest[i].typ) by {
          forall i | 0 < i < k ensures args[i] == tail[i - 1] && params[i] == rest[i - 1] {}
          forall i | 0 <= i < k - 1 ensures args[i + 1] == tail[i] && params[i + 1] == rest[i] {}
        }
        var last := params[|params| - 1];
        assert (exists i :: k <= i < |args| && !IsType(args[i], last.typ)) <==>
               exists i :: k - 1 <= i < |tail| && !IsType(tail[i], last.typ) by {
          forall i | k <= i < |args| ensures args[i] == tail[i - 1] {}
          forall i | k - 1 <= i < |tail| ensures tail[i] == args[i + 1] {}
        }
        }
      }
    }
  }

  /** Only the last parameter's variadic flag matters: lists that agree on
      names, types and the last flag are validated alike. */
  lemma OnlyLastFlagMatters(params: seq<FunctionParameter>, other: seq<FunctionParameter>, args: seq<Value>)
    requires |params| == |other|
    requires forall i :: 0 <= i < |params| ==> params[i].typ == other[i].typ
    requires LastIsVariadic(params) == LastIsVariadic(other)
    ensures ValidateArguments(params, args) == ValidateArguments(other, args)
  {
  }

  /** The variadic arguments as one value: the source binds a
      std::vector<Value>, which is not an alternative of Value; the model
      binds the homogeneous vector of the declared element type, and fails
      when that type is itself a vector. */
  function PackVariadic(typ: ValueType, args: seq<Value>): (r: Option<Value>)
    requires forall i :: 0 <= i < |args| ==> IsType(args[i], typ)
    ensures r.Some? <==> typ in {INTEGER, DOUBLE, STRING, BOOL}
    ensures r.Some? ==> match r.value
      case IntegerVector(xs) => typ == INTEGER && |xs| == |args| && forall i :: 0 <= i < |args| ==> args[i] == Integer(xs[i])
      case DoubleVector(xs) => typ == DOUBLE && |xs| == |args| && forall i :: 0 <= i < |args| ==> args[i] == Double(xs[i])
      case StringVector(xs) => typ == STRING && |xs| == |args| && forall i :: 0 <= i < |args| ==> args[i] == Str(xs[i])
      case BoolVector(xs) => typ == BOOL && |xs| == |args| && forall i :: 0 <= i < |args| ==> args[i] == Bool(xs[i])
      case _ => false
  {
    if typ == INTEGER then
      assert forall i :: 0 <= i < |args| ==> args[i].Integer? by {
        forall i | 0 <= i < |args| ensures args[i].Integer? {
          assert IsType(args[i], typ);
        }
      }
      Some(IntegerVector(seq(|args|, i requires 0 <= i < |args| && args[i].Integer? => args[i].i)))
    else if typ == DOUBLE then
      assert forall i :: 0 <= i < |args| ==> args[i].Double? by {
        forall i | 0 <= i < |args| ensures args[i].Double? {
          assert IsType(args[i], typ);
        }
      }
      Some(DoubleVector(seq(|args|, i requires 0 <= i < |args| && args[i].Double? => args[i].d)))
    else if typ == STRING then
      assert forall i :: 0 <= i < |args| ==> args[i].Str? by {
        forall i | 0 <= i < |args| ensures args[i].Str? {
          assert IsType(args[i], typ);
        }
      }
      Some(StringVector(seq(|args|, i requires 0 <= i < |args| && args[i].Str? => args[i].s)))
    else if typ == BOOL then
      assert forall i :: 0 <= i < |args| ==> args[i].Bool? by {
        forall i | 0 <= i < |args| ensures args[i].Bool? {
          assert IsType(args[i], typ);
        }
      }
      Some(BoolVector(seq(|args|, i requires 0 <= i < |args| && args[i].Bool? => args[i].b)))
    else None
  }

  /** The local variables after binding the first n fixed parameters, one
      setVariable after another (a later parameter of the same name wins). */
  function BindFixed(params: seq<FunctionParameter>, args: seq<Value>, n: nat): map<string, Value>
    requires n <= |params| && n <= |args|
  {
    if n == 0 then map[]
    else BindFixed(params, args, n - 1)[params[n - 1].name := args[n - 1]]
  }

  /** With distinct names, fixed parameter i is bound to argument i. */
  lemma {:induction false} BindFixedBindsEach(params: seq<FunctionParameter>, args: seq<Value>, n: nat)
    requires n <= |params| && n <= |args|
    requires forall i, j :: 0 <= i < j < n ==> params[i].name != params[j].name
    ensures forall i :: 0 <= i < n ==> params[i].name in BindFixed(params, args, n) && BindFixed(params, args, n)[params[i].name] == args[i]
    ensures forall x :: x in BindFixed(params, args, n) <==> exists i :: 0 <= i < n && params[i].name == x
  {
    if n > 0 {
      BindFixedBindsEach(params, args, n - 1);
    }
  }

  /** The local variables UserDefinedFunction::doExecute binds before it
      runs the body: the fixed parameters one by one, then the variadic
      parameter's name to the remaining arguments. None when the variadic
      pack has no Value to live in. */
  function BindArguments(params: seq<FunctionParameter>, args: seq<Value>): (r: Option<map<string, Value>>)
    requires ValidateArguments(params, args).Ok?
    ensures r.None? <==> LastIsVariadic(params) && params[|params| - 1].typ !in {INTEGER, DOUBLE, STRING, BOOL}
  {
    var k := FixedCount(params);
    var fixed := BindFixed(params, args, k);
    if !LastIsVariadic(params) then Some(fixed)
    else
      var last := params[|params| - 1];
      assert forall i :: k <= i < |args| ==> IsType(args[i], last.typ);
      var rest := args[k..];
      assert forall i :: 0 <= i < |rest| ==> IsType(rest[i], last.typ) by {
        forall i | 0 <= i < |rest| ensures IsType(rest[i], last.typ) {
          assert rest[i] == args[k + i];
        }
      }
      match PackVariadic(last.typ, rest)
      case None => None
      case Some(packed) => Some(fixed[last.name := packed])
  }

  /** With distinct parameter names, each fixed parameter is bound to its
      own argument, and a variadic parameter to its arguments in arrival
      order; no other name is bound. */
  lemma BindArgumentsBindsEach(params: seq<FunctionParameter>, args: seq<Value>)
    requires ValidateArguments(params, args).Ok?
    requires forall i, j :: 0 <= i < j < |params| ==> params[i].name != params[j].name
    requires BindArguments(params, args).Some?
    ensures var locals := BindArguments(params, args).value;
      && (forall x :: x in locals <==> exists i :: 0 <= i < |params| && params[i].name == x)
      && (forall i :: 0 <= i < FixedCount(params) ==> locals[params[i].name] == args[i])
      && (LastIsVariadic(params) ==>
            locals[params[|params| - 1].name] == PackVariadic(params[|params| - 1].typ, args[FixedCount(params)..]).value)
  {
    var k := FixedCount(params);
    BindFixedBindsEach(params, args, k);
  }
}
