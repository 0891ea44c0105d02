/** The environment of include/Shattang/MyLisp/Environment.h: a scope with
    its own variable and function maps and a (possibly null) parent.
    Lookups search outward through the parents; bindings go into the
    current scope only.

    The abstract state of an environment is the chain of its scopes, root
    first and the environment's own scope last (Frames). Lookups and updates
    on that chain are the functions of this module; the class is proved to
    implement them. */
module Scopes {
  import opened Wrappers
  import opened TypeSystem
  import opened Functions

  /** One scope's bindings. Variables and functions are separate maps, so
      one name can denote both. */
  datatype Scope = Scope(variables: map<string, Value>, functions: map<string, Function>)

  const EmptyScope := Scope(map[], map[])

  /** The innermost scope binding the variable, if any. */
  function FindVariable(frames: seq<Scope>, name: string): (k: Option<nat>)
    ensures k.Some? ==> k.value < |frames| && name in frames[k.value].variables
    ensures k.Some? ==> forall j :: k.value < j < |frames| ==> name !in frames[j].variables
    ensures k.None? ==> forall j :: 0 <= j < |frames| ==> name !in frames[j].variables
  {
    if frames == [] then None
    else if name in frames[|frames| - 1].variables then Some(|frames| - 1)
    else FindVariable(frames[..|frames| - 1], name)
  }

  /** The value of the innermost binding of the variable. */
  function LookupVariable(frames: seq<Scope>, name: string): Option<Value> {
    match FindVariable(frames, name)
    case None => None
    case Some(k) => Some(frames[k].variables[name])
  }

  /** The innermost scope binding the function, if any. */
  function FindFunction(frames: seq<Scope>, name: string): (k: Option<nat>)
    ensures k.Some? ==> k.value < |frames| && name in frames[k.value].functions
    ensures k.Some? ==> forall j :: k.value < j < |frames| ==> name !in frames[j].functions
    ensures k.None? ==> forall j :: 0 <= j < |frames| ==> name !in frames[j].functions
  {
    if frames == [] then None
    else if name in frames[|frames| - 1].functions then Some(|frames| - 1)
    else FindFunction(frames[..|frames| - 1], name)
  }

  function LookupFunction(frames: seq<Scope>, name: string): Option<Function> {
    match FindFunction(frames, name)
    case None => None
    case Some(k) => Some(frames[k].functions[name])
  }

  /** Bind a variable in scope k, leaving every other scope as it was. */
  function BindVariableAt(frames: seq<Scope>, k: nat, name: string, v: Value): (r: seq<Scope>)
    requires k < |frames|
    ensures |r| == |frames|
    ensures forall j :: 0 <= j < |frames| && j != k ==> r[j] == frames[j]
    ensures r[k].functions == frames[k].functions
    ensures r[k].variables == frames[k].variables[name := v]
  {
    frames[k := frames[k].(variables := frames[k].variables[name := v])]
  }

  /** Bind a variable in the innermost scope. */
  function BindVariable(frames: seq<Scope>, name: string, v: Value): seq<Scope>
    requires |frames| > 0
  {
    BindVariableAt(frames, |frames| - 1, name, v)
  }

  /** Bind a function in the innermost scope. */
  function BindFunction(frames: seq<Scope>, name: string, f: Function): (r: seq<Scope>)
    requires |frames| > 0
    ensures |r| == |frames| && r[..|r| - 1] == frames[..|frames| - 1]
    ensures r[|r| - 1] == Scope(frames[|frames| - 1].variables, frames[|frames| - 1].functions[name := f])
  {
    var k := |frames| - 1;
    frames[k := frames[k].(functions := frames[k].functions[name := f])]
  }

  lemma BindAtTop(below: seq<Scope>, top: Scope, name: string, v: Value)
    ensures BindVariableAt(below + [top], |below|, name, v) == below + [top.(variables := top.variables[name := v])]
  {
  }

  lemma BindBelowTop(below: seq<Scope>, top: Scope, k: nat, name: string, v: Value)
    requires k < |below|
    ensures BindVariableAt(below + [top], k, name, v) == BindVariableAt(below, k, name, v) + [top]
  {
  }

  /** A variable bound in the current scope is then found there, with the
      new value; every other variable keeps its binding. */
  lemma SetThenLookupVariable(frames: seq<Scope>, name: string, v: Value, other: string)
    requires |frames| > 0
    ensures LookupVariable(BindVariable(frames, name, v), name) == Some(v)
    ensures other != name ==> LookupVariable(BindVariable(frames, name, v), other) == LookupVariable(frames, other)
  {
    var r := BindVariable(frames, name, v);
    if other != name {
      SetElsewhereKeepsLookup(frames, |frames| - 1, name, v, other);
    }
  }

  /** Writing one variable leaves the lookup of every other variable
      unchanged. */
  lemma {:induction false} SetElsewhereKeepsLookup(frames: seq<Scope>, k: nat, name: string, v: Value, other: string)
    requires k < |frames| && other != name
    ensures LookupVariable(BindVariableAt(frames, k, name, v), other) == LookupVariable(frames, other)
    decreases |frames|
  {
    var r := BindVariableAt(frames, k, name, v);
    var n := |frames| - 1;
    if other !in frames[n].variables && k < n {
      assert r[..n] == BindVariableAt(frames[..n], k, name, v);
      SetElsewhereKeepsLookup(frames[..n], k, name, v, other);
    } else if other !in frames[n].variables {
      assert r[..n] == frames[..n];
    }
  }

  /** Overwriting a variable where it was found makes the new value the one
      every later lookup sees. */
  lemma AssignThenLookup(frames: seq<Scope>, name: string, v: Value)
    requires FindVariable(frames, name).Some?
    ensures var r := BindVariableAt(frames, FindVariable(frames, name).value, name, v);
      LookupVariable(r, name) == Some(v) && FindVariable(r, name) == FindVariable(frames, name)
  {
    var k := FindVariable(frames, name).value;
    var r := BindVariableAt(frames, k, name, v);
    InnermostIsUnique(r, name, k);
  }

  /** The scope that FindVariable returns is characterised by its contract. */
  lemma InnermostIsUnique(frames: seq<Scope>, name: string, k: nat)
    requires k < |frames| && name in frames[k].variables
    requires forall j :: k < j < |frames| ==> name !in frames[j].variables
    ensures FindVariable(frames, name) == Some(k)
  {
  }

  /** An environment object. The parent link, the set of objects on the
      chain (Repr) and the distance from the root (depth) never change, so
      validity is established once by the constructor. */
  class Environment {
    var variables: map<string, Value>
    var functions: map<string, Function>
    const parent: Environment?
    ghost const Repr: set<Environment>
    ghost const depth: nat

    ghost predicate Valid()
      decreases depth
    {
      && this in Repr
      && (parent == null ==> Repr == {this} && depth == 0)
      && (parent != null ==>
            && parent in Repr && this !in parent.Repr
            && Repr == {this} + parent.Repr
            && depth == parent.depth + 1
            && parent.Valid())
    }

    function Own(): Scope
      reads this
    {
      Scope(variables, functions)
    }

    /** The scopes of the chain, root first, this environment's own last. */
    ghost function Frames(): (fs: seq<Scope>)
      requires Valid()
      reads Repr
      ensures |fs| == depth + 1 && fs[depth] == Own()
      decreases depth
    {
      (if parent == null then [] else parent.Frames()) + [Own()]
    }

    /** Every object on the chain is a valid environment nearer the root. */
    lemma ReprIsChain(x: Environment)
      requires Valid() && x in Repr
      ensures x.Valid() && x.depth <= depth && x.Repr <= Repr
      ensures x.depth == depth ==> x == this
      decreases depth
    {
      if x != this {
        parent.ReprIsChain(x);
      }
    }

    /** Environment(parent, typeSystem). The type system is stateless and
        is left out. */
    constructor (parent: Environment?)
      requires parent != null ==> parent.Valid()
      ensures Valid() && this.parent == parent
      ensures Own() == EmptyScope
      ensures Repr == {this} + (if parent == null then {} else parent.Repr)
      ensures Frames() == (if parent == null then [] else parent.Frames()) + [EmptyScope]
    {
      variables := map[];
      functions := map[];
      this.parent := parent;
      Repr := {this} + (if parent == null then {} else parent.Repr);
      depth := if parent == null then 0 else parent.depth + 1;
    }

    /** Where the search for a name stands at this scope: found here, or
        continued in the parent, or failed at the root. */
    lemma SearchStep(name: string)
      requires Valid()
      ensures name in variables ==> FindVariable(Frames(), name) == Some(depth)
      ensures name !in variables && parent == null ==> FindVariable(Frames(), name).None?
      ensures name !in variables && parent != null ==> FindVariable(Frames(), name) == FindVariable(parent.Frames(), name)
      ensures name in functions ==> FindFunction(Frames(), name) == Some(depth)
      ensures name !in functions && parent == null ==> FindFunction(Frames(), name).None?
      ensures name !in functions && parent != null ==> FindFunction(Frames(), name) == FindFunction(parent.Frames(), name)
    {
      var fs := Frames();
      if parent != null {
        assert fs[..|fs| - 1] == parent.Frames();
      }
    }

    /** An ancestor's scopes are a prefix of this environment's. */
    lemma FramesPrefix(x: Environment)
      requires Valid() && x in Repr
      ensures x.Valid() && x.depth <= depth && x.Frames() == Frames()[..x.depth + 1]
      decreases depth
    {
      ReprIsChain(x);
      if x != this {
        parent.FramesPrefix(x);
        var above := parent.Frames();
        assert Frames() == above + [Own()];
        assert Frames()[..x.depth + 1] == above[..x.depth + 1];
      }
    }

    /** getVariable: the environment whose map holds the innermost binding
        of the name, searching the parents (the source returns a pointer
        into that map); null when no scope binds the name. */
    method GetVariable(name: string) returns (owner: Environment?)
      requires Valid()
      ensures owner == null <==> FindVariable(Frames(), name).None?
      ensures owner != null ==>
        && owner in Repr && owner.Valid()
        && FindVariable(Frames(), name) == Some(owner.depth)
        && name in owner.variables
        && LookupVariable(Frames(), name) == Some(owner.variables[name])
      decreases depth, 1
    {
      SearchStep(name);
      if name in variables {
        owner := this;
      } else if parent == null {
        owner := null;
      } else {
        owner := GetInParent(name);
      }
    }

    /** The search continued in the parent when this scope does not bind the name. */
    method GetInParent(name: string) returns (owner: Environment?)
      requires Valid() && parent != null && name !in variables
      ensures owner == null <==> FindVariable(Frames(), name).None?
      ensures owner != null ==>
        && owner in Repr && owner.Valid()
        && FindVariable(Frames(), name) == Some(owner.depth)
        && name in owner.variables
        && LookupVariable(Frames(), name) == Some(owner.variables[name])
      decreases depth, 0
    {
      SearchStep(name);
      owner := parent.GetVariable(name);
      if owner != null {
        FramesPrefix(owner);
        assert Frames()[owner.depth] == owner.Frames()[owner.depth];
      }
    }

    /** getFunction: the innermost function of that name, searching the
        parents; None when no scope binds it. */
    method GetFunction(name: string) returns (f: Option<Function>)
      requires Valid()
      ensures f == LookupFunction(Frames(), name)
      decreases depth
    {
      SearchStep(name);
      if name in functions {
        f := Some(functions[name]);
      } else if parent == null {
        f := None;
      } else {
        f := parent.GetFunction(name);
        assert Frames() == parent.Frames() + [Own()];
      }
    }

    /** The write through the pointer that getVariable returns: overwrite
        the innermost binding of the name, wherever on the chain it is.
        Nothing changes when no scope binds the name. */
    method WriteVariable(name: string, v: Value) returns (found: bool)
      requires Valid()
      modifies Repr
      ensures found <==> FindVariable(old(Frames()), name).Some?
      ensures found ==> Frames() == BindVariableAt(old(Frames()), FindVariable(old(Frames()), name).value, name, v)
      ensures !found ==> Frames() == old(Frames())
      decreases depth, 1
    {
      SearchStep(name);
      if name in variables {
        OverwriteOwn(name, v);
        found := true;
      } else if parent == null {
        found := false;
      } else {
        found := WriteInParent(name, v);
      }
    }

    /** The binding is in this environment's own map. */
    method OverwriteOwn(name: string, v: Value)
      requires Valid()
      modifies this
      ensures Frames() == BindVariableAt(old(Frames()), depth, name, v)
    {
      ghost var below := if parent == null then [] else parent.Frames();
      assert old(Frames()) == below + [Own()];
      BindAtTop(below, Own(), name, v);
      variables := variables[name := v];
      assert Frames() == below + [Own()];
    }

    /** The binding, if any, is further up the chain. */
    method WriteInParent(name: string, v: Value) returns (found: bool)
      requires Valid() && parent != null && name !in variables
      modifies Repr
      ensures found <==> FindVariable(old(Frames()), name).Some?
      ensures found ==> Frames() == BindVariableAt(old(Frames()), FindVariable(old(Frames()), name).value, name, v)
      ensures !found ==> Frames() == old(Frames())
      decreases depth, 0
    {
      SearchStep(name);
      ghost var above := parent.Frames();
      ghost var mine := Own();
      assert old(Frames()) == above + [mine];
      found := parent.WriteVariable(name, v);
      assert Own() == mine;
      assert Frames() == parent.Frames() + [mine];
      if found {
        var k := FindVariable(above, name).value;
        BindBelowTop(above, mine, k, name, v);
      }
    }

    /** setVariable: bind in this environment only. */
    method SetVariable(name: string, v: Value)
      requires Valid()
      modifies this
      ensures variables == old(variables)[name := v] && functions == old(functions)
      ensures Frames() == BindVariable(old(Frames()), name, v)
    {
      variables := variables[name := v];
    }

    /** setFunction: bind in this environment only. */
    method SetFunction(name: string, f: Function)
      requires Valid()
      modifies this
      ensures functions == old(functions)[name := f] && variables == old(variables)
      ensures Frames() == BindFunction(old(Frames()), name, f)
    {
      functions := functions[name := f];
    }
  }
}
