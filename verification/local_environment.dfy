/** The environment of MyLisp/Environment.cpp: two maps and no parent. A
    missing name is an error here, not a search of an enclosing scope. */
module LocalEnvironment {
  import opened Wrappers
  import opened TypeSystem
  import opened Functions

  /** The runtime_error messages of the two getters. */
  datatype LookupError = FunctionNotFound(name: string) | VariableNotFound(name: string)

  class Environment {
    var variables: map<string, Value>
    var functions: map<string, Function>

    constructor ()
      ensures variables == map[] && functions == map[]
    {
      variables := map[];
      functions := map[];
    }

    /** The answer getVariable gives in the current state. */
    function Variable(name: string): (r: Result<Value, LookupError>)
      reads this
      ensures r.Ok? <==> name in variables
      ensures r.Ok? ==> r.value == variables[name]
      ensures r.Err? ==> r.error == VariableNotFound(name)
    {
      if name in variables then Ok(variables[name]) else Err(VariableNotFound(name))
    }

    /** The answer getFunction gives in the current state. */
    function FunctionNamed(name: string): (r: Result<Function, LookupError>)
      reads this
      ensures r.Ok? <==> name in functions
      ensures r.Ok? ==> r.value == functions[name]
      ensures r.Err? ==> r.error == FunctionNotFound(name)
    {
      if name in functions then Ok(functions[name]) else Err(FunctionNotFound(name))
    }

    /** addFunction: store or replace the function under its name. */
    method AddFunction(name: string, f: Function)
      modifies this
      ensures functions == old(functions)[name := f] && variables == old(variables)
      ensures FunctionNamed(name) == Ok(f)
      ensures forall n :: n != name ==> FunctionNamed(n) == old(FunctionNamed(n))
    {
      functions := functions[name := f];
    }

    /** getFunction: the function stored under the name, or an error; the
        environment is not changed. */
    method GetFunction(name: string) returns (r: Result<Function, LookupError>)
      ensures r == FunctionNamed(name)
    {
      if name in functions {
        r := Ok(functions[name]);
      } else {
        r := Err(FunctionNotFound(name));
      }
    }

    /** setVariable: overwrite or create the binding of the name only. */
    method SetVariable(name: string, v: Value)
      modifies this
      ensures variables == old(variables)[name := v] && functions == old(functions)
      ensures Variable(name) == Ok(v)
      ensures forall n :: n != name ==> Variable(n) == old(Variable(n))
    {
      variables := variables[name := v];
    }

    /** getVariable: a copy of the bound value, or an error; the
        environment is not changed. */
    method GetVariable(name: string) returns (r: Result<Value, LookupError>)
      ensures r == Variable(name)
    {
      if name in variables {
        r := Ok(variables[name]);
      } else {
        r := Err(VariableNotFound(name));
      }
    }
  }
}
