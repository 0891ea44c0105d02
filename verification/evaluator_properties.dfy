/** What the evaluator of MyLisp/ASTEvaluator.cpp, Function.cpp and
    UserDefinedFunction.cpp promises, stated about the reference meaning
    Eval and its companions. Every statement is for a given fuel; the
    fuel a statement needs is spelled out in its requires. */
module EvaluatorProperties {
  import opened Wrappers
  import opened TypeSystem
  import opened Ast
  import opened Functions
  import opened Scopes
  import opened Evaluator

  /** Literals evaluate to the value they carry and change no scope. */
  lemma LiteralsEvaluateToThemselves(h: Host, frames: seq<Scope>, fuel: nat, x: int, d: real, b: bool, s: string)
    requires |frames| > 0 && fuel > 0
    ensures Eval(h, IntegerNode(x), frames, fuel) == Outcome(Ok(Integer(x)), frames)
    ensures Eval(h, FloatNode(d), frames, fuel) == Outcome(Ok(Double(d)), frames)
    ensures Eval(h, BooleanNode(b), frames, fuel) == Outcome(Ok(Bool(b)), frames)
    ensures Eval(h, StringNode(s), frames, fuel) == Outcome(Ok(Str(s)), frames)
  {
  }

  /** A symbol evaluates to the innermost binding of the variable, and to
      an error exactly when no scope on the chain binds it. */
  lemma SymbolReadsInnermostBinding(h: Host, name: string, frames: seq<Scope>, fuel: nat)
    requires |frames| > 0 && fuel > 0
    ensures var o := Eval(h, SymbolNode(name), frames, fuel);
      && o.frames == frames
      && (o.result.Ok? <==> FindVariable(frames, name).Some?)
      && (o.result.Ok? ==> o.result.value == frames[FindVariable(frames, name).value].variables[name])
      && (o.result.Err? ==> o.result.error == UndefinedSymbol(name))
  {
  }

  /** A declaration binds the value in the current scope, shadowing any
      outer binding and leaving the outer scopes and the other variables
      alone; if the value fails, nothing is bound. */
  lemma DeclarationBindsInCurrentScope(h: Host, name: string, typeName: string, value: Node,
                                       frames: seq<Scope>, fuel: nat, other: string)
    requires |frames| > 0 && fuel > 0
    ensures var ov := Eval(h, value, frames, fuel - 1);
      var o := Eval(h, VariableDeclarationNode(name, typeName, value), frames, fuel);
      && (ov.result.Err? ==> o == ov)
      && (ov.result.Ok? ==>
            && o.result == Ok(DefaultValue)
            && o.frames[..|frames| - 1] == ov.frames[..|frames| - 1]
            && o.frames[|frames| - 1].variables == ov.frames[|frames| - 1].variables[name := ov.result.value]
            && LookupVariable(o.frames, name) == Some(ov.result.value)
            && (other != name ==> LookupVariable(o.frames, other) == LookupVariable(ov.frames, other)))
  {
    var ov := Eval(h, value, frames, fuel - 1);
    if ov.result.Ok? {
      var node := VariableDeclarationNode(name, typeName, value);
      var r := BindVariableAt(ov.frames, |frames| - 1, name, ov.result.value);
      assert Eval(h, node, frames, fuel) == EvalDeclaration(h, name, value, frames, fuel - 1);
      assert EvalDeclaration(h, name, value, frames, fuel - 1) == Outcome(Ok(DefaultValue), r);
      assert r[..|frames| - 1] == ov.frames[..|frames| - 1];
      SetThenLookupVariable(ov.frames, name, ov.result.value, other);
    }
  }

  /** The write of an assignment overwrites the innermost binding wherever
      it lives, so that binding stays the one found and now holds the new
      value, and nothing else changes; it is an error, with no change, when
      no scope binds the name. */
  lemma AssignWritesWhereFound(frames: seq<Scope>, name: string, v: Value, other: string)
    ensures var o := Assign(frames, name, v);
      && (FindVariable(frames, name).None? ==> o == Outcome(Err(UndefinedVariable(name)), frames))
      && (FindVariable(frames, name).Some? ==>
            && o.result == Ok(DefaultValue)
            && FindVariable(o.frames, name) == FindVariable(frames, name)
            && LookupVariable(o.frames, name) == Some(v)
            && (forall j :: 0 <= j < |frames| && j != FindVariable(frames, name).value ==> o.frames[j] == frames[j])
            && (other != name ==> LookupVariable(o.frames, other) == LookupVariable(frames, other)))
  {
    if FindVariable(frames, name).Some? {
      var k := FindVariable(frames, name).value;
      AssignThenLookup(frames, name, v);
      if other != name {
        SetElsewhereKeepsLookup(frames, k, name, v, other);
      }
    }
  }

  /** An assignment evaluates its value first, then writes it as Assign
      does; a failing value writes nothing. */
  lemma AssignmentEvaluatesThenWrites(h: Host, name: string, value: Node, frames: seq<Scope>, fuel: nat)
    requires |frames| > 0 && fuel > 0
    ensures var ov := Eval(h, value, frames, fuel - 1);
      var o := Eval(h, VariableAssignmentNode(name, value), frames, fuel);
      && (ov.result.Err? ==> o == ov)
      && (ov.result.Ok? ==> o == Assign(ov.frames, name, ov.result.value))
  {
    var node := VariableAssignmentNode(name, value);
    assert Eval(h, node, frames, fuel) == EvalAssignment(h, name, value, frames, fuel - 1);
  }

  /** Every scope binds the same variables in both chains. */
  predicate SameVariables(a: seq<Scope>, b: seq<Scope>) {
    |a| == |b| && forall j :: 0 <= j < |a| ==> a[j].variables == b[j].variables
  }

  lemma {:induction false} SameVariablesSameLookup(a: seq<Scope>, b: seq<Scope>, x: string)
    requires SameVariables(a, b)
    ensures LookupVariable(a, x) == LookupVariable(b, x)
    decreases |a|
  {
    if a != [] && x !in a[|a| - 1].variables {
      SameVariablesSameLookup(a[..|a| - 1], b[..|b| - 1], x);
    }
  }

  /** A function declaration binds a user function with the resolved
      parameters and the recorded result type in the current scope, and
      leaves every variable as it was. */
  lemma FunctionDeclarationBindsInCurrentScope(h: Host, name: string, params: seq<Parameter>, returnType: string,
                                               body: seq<Node>, frames: seq<Scope>, fuel: nat, x: string)
    requires |frames| > 0 && fuel > 0
    ensures var o := Eval(h, FunctionDeclarationNode(name, params, returnType, body), frames, fuel);
      && o.result == Ok(DefaultValue)
      && LookupFunction(o.frames, name) == Some(UserDefinedFunction(name, ResolveParams(h, params), DeclaredReturnType, body))
      && LookupVariable(o.frames, x) == LookupVariable(frames, x)
  {
    var node := FunctionDeclarationNode(name, params, returnType, body);
    var f := UserDefinedFunction(name, ResolveParams(h, params), DeclaredReturnType, body);
    var r := BindFunction(frames, name, f);
    assert Eval(h, node, frames, fuel) == Outcome(Ok(DefaultValue), r);
    forall j | 0 <= j < |frames| - 1
      ensures r[j] == frames[j]
    {
      assert r[j] == r[..|r| - 1][j];
    }
    SameVariablesSameLookup(r, frames, x);
  }

  /** IF evaluates its condition and then exactly one branch, in the scopes
      the condition left; a condition that is not a bool is an error. */
  lemma IfTakesOneBranch(h: Host, c: Node, t: Node, e: Node, frames: seq<Scope>, fuel: nat)
    requires |frames| > 0 && fuel > 0
    ensures var oc := Eval(h, c, frames, fuel - 1);
      var o := Eval(h, IfNode(c, t, e), frames, fuel);
      && (oc.result.Err? ==> o == oc)
      && (oc.result.Ok? && !oc.result.value.Bool? ==> o == Outcome(Err(NotABool), oc.frames))
      && (oc.result.Ok? && oc.result.value.Bool? ==>
            o == Eval(h, if oc.result.value.b then t else e, oc.frames, fuel - 1))
  {
    var node := IfNode(c, t, e);
    assert Eval(h, node, frames, fuel) == EvalNode(h, node, frames, fuel - 1);
    assert EvalNode(h, node, frames, fuel - 1) == EvalIf(h, c, t, e, frames, fuel - 1);
  }

  /** A for loop whose start is not below its end runs no pass: once the
      bounds are evaluated, its value is the default value and the index is
      never bound. */
  lemma EmptyForRangeRunsNoPass(h: Host, index: string, start: Node, end: Node, step: Node, body: seq<Node>,
                                frames: seq<Scope>, fuel: nat)
    requires |frames| > 0 && fuel > 0
    ensures var os := Eval(h, start, frames, fuel - 1);
      var oe := Eval(h, end, os.frames, fuel - 1);
      var ot := Eval(h, step, oe.frames, fuel - 1);
      os.result.Ok? && oe.result.Ok? && ot.result.Ok? &&
      os.result.value.Integer? && oe.result.value.Integer? && ot.result.value.Integer? &&
      os.result.value.i >= oe.result.value.i ==>
        Eval(h, ForIterationNode(index, start, end, step, body), frames, fuel) == Outcome(Ok(DefaultValue), ot.frames)
  {
    var node := ForIterationNode(index, start, end, step, body);
    assert Eval(h, node, frames, fuel) == EvalNode(h, node, frames, fuel - 1);
    assert EvalNode(h, node, frames, fuel - 1) == EvalFor(h, index, start, end, step, body, frames, fuel - 1);
  }

  lemma MulAtLeastOnce(k: int, d: int)
    requires k >= 1 && d > 0
    ensures k * d >= d
    decreases k
  {
    if k > 1 {
      MulAtLeastOnce(k - 1, d);
      assert k * d == (k - 1) * d + d;
    }
  }

  /** Division by a positive divisor is determined by quotient and remainder. */
  lemma DivUnique(n: int, d: int, q: int, r: int)
    requires d > 0 && 0 <= r < d && n == q * d + r
    ensures n / d == q
  {
    var q', r' := n / d, n % d;
    assert n == q' * d + r';
    if q' < q {
      MulAtLeastOnce(q - q', d);
      assert false;
    } else if q' > q {
      MulAtLeastOnce(q' - q, d);
      assert false;
    }
  }

  /** The last of i, i + step, i + 2 * step, ... that is below end. */
  function LastIndex(i: int, end: int, step: int): int
    requires step > 0
  {
    i + ((end - i - 1) / step) * step
  }

  /** How many of i, i + step, ... are below end. */
  function Passes(i: int, end: int, step: int): int
    requires step > 0
  {
    (end - i - 1) / step + 1
  }

  lemma LastIndexSteps(i: int, end: int, step: int)
    requires step > 0 && i < end
    ensures i + step >= end ==> LastIndex(i, end, step) == i && Passes(i, end, step) == 1
    ensures i + step < end ==>
      LastIndex(i + step, end, step) == LastIndex(i, end, step) && Passes(i + step, end, step) == Passes(i, end, step) - 1
    ensures i <= LastIndex(i, end, step) < end
  {
    var n := end - i - 1;
    var q, r := n / step, n % step;
    assert n == q * step + r;
    if i + step >= end {
      DivUnique(n, step, 0, n);
    } else {
      assert end - (i + step) - 1 == (q - 1) * step + r;
      DivUnique(end - (i + step) - 1, step, q - 1, r);
      assert (q - 1) * step == q * step - step;
    }
    if q > 0 {
      MulAtLeastOnce(q, step);
    }
  }

  lemma BindTwice(frames: seq<Scope>, name: string, a: Value, b: Value)
    requires |frames| > 0
    ensures BindVariable(BindVariable(frames, name, a), name, b) == BindVariable(frames, name, b)
  {
    var k := |frames| - 1;
    assert frames[k].variables[name := a][name := b] == frames[k].variables[name := b];
  }

  /** One pass of a for loop whose body reads the index. */
  lemma ReadIndexPass(h: Host, index: string, i: int, end: int, step: int,
                      result: Value, frames: seq<Scope>, fuel: nat)
    requires |frames| > 0 && i < end && fuel > 1 && IsLong(i + step)
    ensures ForLoop(h, index, i, end, step, [SymbolNode(index)], result, frames, fuel)
         == ForLoop(h, index, i + step, end, step, [SymbolNode(index)], Integer(i),
                    BindVariable(frames, index, Integer(i)), fuel - 1)
  {
    var bound := BindVariable(frames, index, Integer(i));
    SetThenLookupVariable(frames, index, Integer(i), index);
    assert Eval(h, SymbolNode(index), bound, fuel - 1) == Outcome(Ok(Integer(i)), bound);
    assert EvalBody(h, [SymbolNode(index)], result, bound, fuel - 1) == Outcome(Ok(Integer(i)), bound);
  }

  /** With a positive step, the loop binds the index to i, i + step, ...
      for as long as it is below the end, and then stops: a body that reads
      the index ends with LastIndex, the last of them, both as the loop's
      value and as the binding it leaves. The loop needs one unit of fuel
      per pass beyond the body's own. */
  lemma {:induction false} ForLoopEndsOnLastIndex(h: Host, index: string, i: int, end: int, step: int,
                                                  result: Value, frames: seq<Scope>, fuel: nat)
    requires |frames| > 0 && step > 0 && i < end
    requires IsLong(i) && end - 1 + step <= LongMax
    requires fuel > Passes(i, end, step)
    ensures ForLoop(h, index, i, end, step, [SymbolNode(index)], result, frames, fuel)
         == Outcome(Ok(Integer(LastIndex(i, end, step))), BindVariable(frames, index, Integer(LastIndex(i, end, step))))
    decreases fuel
  {
    LastIndexSteps(i, end, step);
    ReadIndexPass(h, index, i, end, step, result, frames, fuel);
    var bound := BindVariable(frames, index, Integer(i));
    if i + step < end {
      ForLoopEndsOnLastIndex(h, index, i + step, end, step, Integer(i), bound, fuel - 1);
      BindTwice(frames, index, Integer(i), Integer(LastIndex(i, end, step)));
    }
  }

  /** `(for i 0 10 3 i)` binds i to 0, 3, 6 and 9 and ends with 9. */
  lemma ForLoopExample(h: Host, frames: seq<Scope>, fuel: nat)
    requires |frames| > 0 && fuel > 4
    ensures ForLoop(h, "i", 0, 10, 3, [SymbolNode("i")], DefaultValue, frames, fuel)
         == Outcome(Ok(Integer(9)), BindVariable(frames, "i", Integer(9)))
  {
    ForLoopEndsOnLastIndex(h, "i", 0, 10, 3, DefaultValue, frames, fuel);
  }

  /** Bounds that are not all integers are an error once all three are
      evaluated. */
  lemma ForBoundsMustBeIntegers(h: Host, index: string, start: Node, end: Node, step: Node, body: seq<Node>,
                                frames: seq<Scope>, fuel: nat)
    requires |frames| > 0 && fuel > 0
    ensures var os := Eval(h, start, frames, fuel - 1);
      var oe := Eval(h, end, os.frames, fuel - 1);
      var ot := Eval(h, step, oe.frames, fuel - 1);
      var o := Eval(h, ForIterationNode(index, start, end, step, body), frames, fuel);
      os.result.Ok? && oe.result.Ok? && ot.result.Ok? &&
      !(os.result.value.Integer? && oe.result.value.Integer? && ot.result.value.Integer?) ==>
        o == Outcome(Err(ForBoundsNotIntegers), ot.frames)
  {
    var node := ForIterationNode(index, start, end, step, body);
    assert Eval(h, node, frames, fuel) == EvalNode(h, node, frames, fuel - 1);
    assert EvalNode(h, node, frames, fuel - 1) == EvalFor(h, index, start, end, step, body, frames, fuel - 1);
  }

  /** With a step that is not positive and a start below the end, the index
      never reaches the end: the loop ends only in an error (running out of
      fuel, at the latest). */
  lemma {:induction false} NonPositiveStepNeverFinishes(h: Host, index: string, i: int, end: int, step: int,
                                                        body: seq<Node>, result: Value, frames: seq<Scope>, fuel: nat)
    requires |frames| > 0 && step <= 0 && i < end
    ensures ForLoop(h, index, i, end, step, body, result, frames, fuel).result.Err?
    decreases fuel
  {
    if fuel > 0 {
      var ob := EvalBody(h, body, result, BindVariable(frames, index, Integer(i)), fuel - 1);
      if ob.result.Ok? && IsLong(i + step) {
        NonPositiveStepNeverFinishes(h, index, i + step, end, step, body, ob.result.value, ob.frames, fuel - 1);
      }
    }
  }

  /** A while loop whose condition is first false runs no pass and has the
      default value; a condition that is not a bool is an error. */
  lemma WhileFalseRunsNoPass(h: Host, c: Node, body: seq<Node>, frames: seq<Scope>, fuel: nat)
    requires |frames| > 0 && fuel > 1
    ensures var oc := Eval(h, c, frames, fuel - 2);
      var o := Eval(h, WhileIterationNode(c, body), frames, fuel);
      && (oc.result == Ok(Bool(false)) ==> o == Outcome(Ok(DefaultValue), oc.frames))
      && (oc.result.Ok? && !oc.result.value.Bool? ==> o == Outcome(Err(NotABool), oc.frames))
  {
    var node := WhileIterationNode(c, body);
    assert Eval(h, node, frames, fuel) == EvalNode(h, node, frames, fuel - 1);
    assert EvalNode(h, node, frames, fuel - 1) == WhileLoop(h, c, body, DefaultValue, frames, fuel - 1);
    var oc := EvalCondition(h, c, frames, fuel - 2);
    assert WhileLoop(h, c, body, DefaultValue, frames, fuel - 1) == WhilePass(h, c, body, DefaultValue, oc, fuel - 2);
  }

  /** A while loop whose condition holds once and then fails runs one
      pass and has that pass's body value, in the scopes the second
      condition leaves. */
  lemma WhilePassThenStop(h: Host, c: Node, body: seq<Node>, result: Value, frames: seq<Scope>, fuel: nat)
    requires |frames| > 0 && fuel > 1
    ensures var oc := Eval(h, c, frames, fuel - 1);
      var ob := EvalBody(h, body, result, oc.frames, fuel - 1);
      var oc2 := Eval(h, c, ob.frames, fuel - 2);
      oc.result == Ok(Bool(true)) && ob.result.Ok? && oc2.result == Ok(Bool(false)) ==>
        WhileLoop(h, c, body, result, frames, fuel) == Outcome(Ok(ob.result.value), oc2.frames)
  {
    var e1 := Eval(h, c, frames, fuel - 1);
    if e1.result == Ok(Bool(true)) {
      var oc := EvalCondition(h, c, frames, fuel - 1);
      assert oc == Outcome(Ok(true), e1.frames);
      assert WhileLoop(h, c, body, result, frames, fuel) == WhilePass(h, c, body, result, oc, fuel - 1);
      var ob := EvalBody(h, body, result, e1.frames, fuel - 1);
      assert WhilePass(h, c, body, result, oc, fuel - 1)
          == (if ob.result.Err? then ob else WhileLoop(h, c, body, ob.result.value, ob.frames, fuel - 1));
      if ob.result.Ok? {
        var e2 := Eval(h, c, ob.frames, fuel - 2);
        if e2.result == Ok(Bool(false)) {
          var oc2 := EvalCondition(h, c, ob.frames, fuel - 2);
          assert oc2 == Outcome(Ok(false), e2.frames);
          assert WhileLoop(h, c, body, ob.result.value, ob.frames, fuel - 1)
              == WhilePass(h, c, body, ob.result.value, oc2, fuel - 2);
        }
      }
    }
  }

  /** The body of the loop below: clear the flag where it is bound, then v. */
  lemma ClearFlagBody(h: Host, flag: string, v: int, frames: seq<Scope>, fuel: nat)
    requires |frames| > 0 && fuel > 1 && FindVariable(frames, flag).Some?
    ensures EvalBody(h, [VariableAssignmentNode(flag, BooleanNode(false)), IntegerNode(v)], DefaultValue, frames, fuel)
         == Outcome(Ok(Integer(v)), BindVariableAt(frames, FindVariable(frames, flag).value, flag, Bool(false)))
  {
    var body := [VariableAssignmentNode(flag, BooleanNode(false)), IntegerNode(v)];
    var after := BindVariableAt(frames, FindVariable(frames, flag).value, flag, Bool(false));
    LiteralsEvaluateToThemselves(h, frames, fuel - 1, v, 0.0, false, "");
    AssignmentEvaluatesThenWrites(h, flag, BooleanNode(false), frames, fuel);
    assert Eval(h, body[0], frames, fuel) == Outcome(Ok(DefaultValue), after);
    LiteralsEvaluateToThemselves(h, after, fuel, v, 0.0, false, "");
    assert body[1..] == [IntegerNode(v)];
    assert EvalBody(h, body, DefaultValue, frames, fuel) == EvalBody(h, [IntegerNode(v)], DefaultValue, after, fuel);
    assert EvalBody(h, [IntegerNode(v)], DefaultValue, after, fuel) == EvalBody(h, [], Integer(v), after, fuel);
  }

  /** `(while flag (set flag false) v)` with flag bound to true runs one
      pass: its value is v, and the only change is flag set to false where
      it is bound. */
  lemma WhileFlagRunsOnePass(h: Host, flag: string, v: int, frames: seq<Scope>, fuel: nat)
    requires |frames| > 0 && fuel > 3 && LookupVariable(frames, flag) == Some(Bool(true))
    ensures var after := BindVariableAt(frames, FindVariable(frames, flag).value, flag, Bool(false));
      Eval(h, WhileIterationNode(SymbolNode(flag), [VariableAssignmentNode(flag, BooleanNode(false)), IntegerNode(v)]),
           frames, fuel)
        == Outcome(Ok(Integer(v)), after)
  {
    var body := [VariableAssignmentNode(flag, BooleanNode(false)), IntegerNode(v)];
    var node := WhileIterationNode(SymbolNode(flag), body);
    var after := BindVariableAt(frames, FindVariable(frames, flag).value, flag, Bool(false));
    assert Eval(h, node, frames, fuel) == EvalNode(h, node, frames, fuel - 1);
    assert EvalNode(h, node, frames, fuel - 1) == WhileLoop(h, SymbolNode(flag), body, DefaultValue, frames, fuel - 1);
    assert Eval(h, SymbolNode(flag), frames, fuel - 2) == Outcome(Ok(Bool(true)), frames);
    ClearFlagBody(h, flag, v, frames, fuel - 2);
    AssignWritesWhereFound(frames, flag, Bool(false), flag);
    assert Eval(h, SymbolNode(flag), after, fuel - 3) == Outcome(Ok(Bool(false)), after);
    WhilePassThenStop(h, SymbolNode(flag), body, DefaultValue, frames, fuel - 1);
  }

  /** `(while true ...)` never ends with a value. */
  lemma {:induction false} WhileTrueNeverFinishes(h: Host, body: seq<Node>, result: Value, frames: seq<Scope>, fuel: nat)
    requires |frames| > 0
    ensures WhileLoop(h, BooleanNode(true), body, result, frames, fuel).result.Err?
    decreases fuel
  {
    if fuel > 0 {
      var oc := EvalCondition(h, BooleanNode(true), frames, fuel - 1);
      assert WhileLoop(h, BooleanNode(true), body, result, frames, fuel) == WhilePass(h, BooleanNode(true), body, result, oc, fuel - 1);
      if fuel == 1 {
        assert Eval(h, BooleanNode(true), frames, 0).result.Err?;
      } else {
        LiteralsEvaluateToThemselves(h, frames, fuel - 1, 0, 0.0, true, "");
        assert oc == Outcome(Ok(true), frames);
        var ob := EvalBody(h, body, result, frames, fuel - 1);
        if ob.result.Ok? {
          WhileTrueNeverFinishes(h, body, ob.result.value, ob.frames, fuel - 1);
        }
      }
    }
  }

  /** A call resolves the function before anything else: calling an
      undefined function evaluates none of the arguments. */
  lemma UndefinedFunctionEvaluatesNoArgument(h: Host, name: string, args: seq<Node>, frames: seq<Scope>, fuel: nat)
    requires |frames| > 0 && fuel > 0 && LookupFunction(frames, name).None?
    ensures Eval(h, FunctionCallNode(name, args), frames, fuel) == Outcome(Err(UndefinedFunction(name)), frames)
  {
    var node := FunctionCallNode(name, args);
    assert Eval(h, node, frames, fuel) == EvalNode(h, node, frames, fuel - 1);
    assert EvalNode(h, node, frames, fuel - 1) == EvalCall(h, name, args, frames, fuel - 1);
  }

  /** Arguments that fail validation stop the call before the function
      runs, with the scopes unchanged. */
  lemma ValidationPrecedesExecution(h: Host, f: Function, args: seq<Value>, frames: seq<Scope>, fuel: nat)
    requires |frames| > 0 && ValidateArguments(f.params, args).Err?
    ensures Evaluator.Execute(h, f, args, frames, fuel)
         == Outcome(Err(InvalidArguments(ValidateArguments(f.params, args).error)), frames)
  {
  }

  /** A user function with an empty body returns the default value, the
      long 0, whatever its declared result type. */
  lemma EmptyBodyReturnsZero(h: Host, name: string, params: seq<FunctionParameter>, returnType: ValueType,
                             args: seq<Value>, frames: seq<Scope>, fuel: nat)
    requires |frames| > 0
    requires ValidateArguments(params, args).Ok? && BindArguments(params, args).Some?
    ensures Evaluator.Execute(h, UserDefinedFunction(name, params, returnType, []), args, frames, fuel)
         == Outcome(Ok(Integer(0)), frames)
  {
    var f := UserDefinedFunction(name, params, returnType, []);
    var locals := BindArguments(params, args).value;
    var callee := frames + [Scope(locals, map[])];
    assert Evaluator.Execute(h, f, args, frames, fuel) == DoExecute(h, f, args, frames, fuel);
    assert EvalBody(h, [], DefaultValue, callee, fuel) == Outcome(Ok(DefaultValue), callee);
    assert callee[..|frames|] == frames;
  }

  /** The declared result type of a user function never affects a call. */
  lemma ReturnTypeIgnored(h: Host, name: string, params: seq<FunctionParameter>, t1: ValueType, t2: ValueType,
                          body: seq<Node>, args: seq<Value>, frames: seq<Scope>, fuel: nat)
    requires |frames| > 0
    ensures Evaluator.Execute(h, UserDefinedFunction(name, params, t1, body), args, frames, fuel)
         == Evaluator.Execute(h, UserDefinedFunction(name, params, t2, body), args, frames, fuel)
  {
  }

  /** With distinct parameter names, a body that reads fixed parameter i
      returns argument i, and the caller's scopes are as they were. */
  lemma ParameterReadsItsArgument(h: Host, name: string, params: seq<FunctionParameter>, returnType: ValueType,
                                  args: seq<Value>, frames: seq<Scope>, fuel: nat, i: nat)
    requires |frames| > 0 && fuel > 0
    requires ValidateArguments(params, args).Ok? && BindArguments(params, args).Some?
    requires forall p, q :: 0 <= p < q < |params| ==> params[p].name != params[q].name
    requires i < FixedCount(params)
    ensures Evaluator.Execute(h, UserDefinedFunction(name, params, returnType, [SymbolNode(params[i].name)]), args, frames, fuel)
         == Outcome(Ok(args[i]), frames)
  {
    BindArgumentsBindsEach(params, args);
    var locals := BindArguments(params, args).value;
    assert params[i].name in locals by {
      assert exists p :: 0 <= p < |params| && params[p].name == params[i].name;
    }
    var f := UserDefinedFunction(name, params, returnType, [SymbolNode(params[i].name)]);
    var callee := frames + [Scope(locals, map[])];
    assert Evaluator.Execute(h, f, args, frames, fuel) == DoExecute(h, f, args, frames, fuel);
    BodyOfOneStatement(h, f.body[0], DefaultValue, callee, fuel);
    assert LookupVariable(callee, params[i].name) == Some(args[i]);
    assert callee[..|frames|] == frames;
  }

  /** The callee's scope sits on the caller's chain, not on the one where
      the function was declared: a variable that is not a parameter is read
      from the caller's scopes (dynamic scoping). */
  lemma CalleeReadsCallerVariables(h: Host, f: Function, args: seq<Value>, frames: seq<Scope>, fuel: nat, x: string)
    requires |frames| > 0 && fuel > 0
    requires f.UserDefinedFunction? && f.body == [SymbolNode(x)]
    requires ValidateArguments(f.params, args).Ok? && BindArguments(f.params, args).Some?
    requires x !in BindArguments(f.params, args).value
    ensures var o := Evaluator.Execute(h, f, args, frames, fuel);
      && o.frames == frames
      && o.result == match LookupVariable(frames, x)
                     case Some(v) => Ok(v)
                     case None => Err(UndefinedSymbol(x))
  {
    var callee := frames + [Scope(BindArguments(f.params, args).value, map[])];
    assert Evaluator.Execute(h, f, args, frames, fuel) == DoExecute(h, f, args, frames, fuel);
    BodyOfOneStatement(h, f.body[0], DefaultValue, callee, fuel);
    assert callee[..|frames|] == frames;
    assert LookupVariable(callee, x) == LookupVariable(frames, x);
  }

  /** An assignment in the callee to a variable of the caller is still in
      effect after the call returns. */
  lemma CalleeAssignmentReachesCaller(h: Host, f: Function, args: seq<Value>, frames: seq<Scope>, fuel: nat,
                                      x: string, n: int)
    requires |frames| > 0 && fuel > 1
    requires f.UserDefinedFunction? && f.body == [VariableAssignmentNode(x, IntegerNode(n))]
    requires ValidateArguments(f.params, args).Ok? && BindArguments(f.params, args).Some?
    requires x !in BindArguments(f.params, args).value && FindVariable(frames, x).Some?
    ensures var o := Evaluator.Execute(h, f, args, frames, fuel);
      o.result == Ok(DefaultValue) && LookupVariable(o.frames, x) == Some(Integer(n))
  {
    var top := Scope(BindArguments(f.params, args).value, map[]);
    var callee := frames + [top];
    var k := FindVariable(frames, x).value;
    assert callee[..|frames|] == frames;
    assert Evaluator.Execute(h, f, args, frames, fuel) == DoExecute(h, f, args, frames, fuel);
    BodyOfOneStatement(h, f.body[0], DefaultValue, callee, fuel);
    AssignmentEvaluatesThenWrites(h, x, IntegerNode(n), callee, fuel);
    LiteralsEvaluateToThemselves(h, callee, fuel - 1, n, 0.0, false, "");
    InnermostIsUnique(callee, x, k);
    BindBelowTop(frames, top, k, x, Integer(n));
    AssignThenLookup(frames, x, Integer(n));
  }

  /** A declaration in the callee binds in the callee's own scope, which is
      dropped on return: the caller's scopes are unchanged. */
  lemma CalleeDeclarationStaysLocal(h: Host, f: Function, args: seq<Value>, frames: seq<Scope>, fuel: nat,
                                    x: string, typeName: string, n: int)
    requires |frames| > 0 && fuel > 1
    requires f.UserDefinedFunction? && f.body == [VariableDeclarationNode(x, typeName, IntegerNode(n))]
    requires ValidateArguments(f.params, args).Ok? && BindArguments(f.params, args).Some?
    ensures Evaluator.Execute(h, f, args, frames, fuel) == Outcome(Ok(DefaultValue), frames)
  {
    var top := Scope(BindArguments(f.params, args).value, map[]);
    var callee := frames + [top];
    assert Evaluator.Execute(h, f, args, frames, fuel) == DoExecute(h, f, args, frames, fuel);
    BodyOfOneStatement(h, f.body[0], DefaultValue, callee, fuel);
    var node := f.body[0];
    assert Eval(h, node, callee, fuel) == EvalDeclaration(h, x, IntegerNode(n), callee, fuel - 1);
    LiteralsEvaluateToThemselves(h, callee, fuel - 1, n, 0.0, false, "");
    BindAtTop(frames, top, x, Integer(n));
    assert (frames + [top.(variables := top.variables[x := Integer(n)])])[..|frames|] == frames;
  }

  /** A body of one statement has that statement's outcome. */
  lemma BodyOfOneStatement(h: Host, node: Node, result: Value, frames: seq<Scope>, fuel: nat)
    requires |frames| > 0
    ensures EvalBody(h, [node], result, frames, fuel) == Eval(h, node, frames, fuel)
  {
    var o := Eval(h, node, frames, fuel);
    if o.result.Ok? {
      assert EvalBody(h, [node][1..], o.result.value, o.frames, fuel) == Outcome(Ok(o.result.value), o.frames);
    }
  }

  /** A whole script handed to evaluate is not a node type it knows. */
  lemma ScriptIsUnknownNodeType(h: Host, statements: seq<Node>, frames: seq<Scope>, fuel: nat)
    requires |frames| > 0 && fuel > 0
    ensures Eval(h, ScriptNode(statements), frames, fuel) == Outcome(Err(UnknownNodeType), frames)
  {
  }
}
