/** The syntax tree of include/Shattang/MyLisp/ASTNode.h. Every child is
    owned by its parent (unique_ptr or a vector of them), so the tree is a
    plain inductive value: no sharing, no parent links. */
module Ast {

  /** NodeType: one tag per concrete node class. */
  datatype NodeType =
    | SYMBOL | INTEGER | FLOAT | BOOLEAN | STRING
    | VARIABLE_DECLARATION | FUNCTION_DECLARATION | FUNCTION_CALL
    | VARIABLE_ASSIGNMENT | FOR_ITERATION | WHILE_ITERATION | IF | SCRIPT

  /** Parameter: a parameter name and the name of its type symbol. */
  datatype Parameter = Parameter(name: string, typeName: string)

  /** The node classes. A SymbolNode held as a type (of a declaration, a
      parameter or a return) has only its name, so it is kept as a string. */
  datatype Node =
    | ScriptNode(statements: seq<Node>)
    | SymbolNode(name: string)
    | IntegerNode(longValue: int)
    | FloatNode(doubleValue: real)
    | BooleanNode(boolValue: bool)
    | StringNode(text: string)
    | VariableDeclarationNode(variableName: string, typeName: string, value: Node)
    | FunctionDeclarationNode(functionName: string, parameters: seq<Parameter>, returnType: string, body: seq<Node>)
    | FunctionCallNode(functionName: string, arguments: seq<Node>)
    | VariableAssignmentNode(variableName: string, value: Node)
    | ForIterationNode(index: string, start: Node, end: Node, step: Node, body: seq<Node>)
    | WhileIterationNode(condition: Node, body: seq<Node>)
    | IfNode(condition: Node, thenBranch: Node, elseBranch: Node)

  /** getType of each node class. */
  function GetType(n: Node): NodeType {
    match n
    case ScriptNode(_) => SCRIPT
    case SymbolNode(_) => SYMBOL
    case IntegerNode(_) => INTEGER
    case FloatNode(_) => FLOAT
    case BooleanNode(_) => BOOLEAN
    case StringNode(_) => STRING
    case VariableDeclarationNode(_, _, _) => VARIABLE_DECLARATION
    case FunctionDeclarationNode(_, _, _, _) => FUNCTION_DECLARATION
    case FunctionCallNode(_, _) => FUNCTION_CALL
    case VariableAssignmentNode(_, _) => VARIABLE_ASSIGNMENT
    case ForIterationNode(_, _, _, _, _) => FOR_ITERATION
    case WhileIterationNode(_, _) => WHILE_ITERATION
    case IfNode(_, _, _) => IF
  }

  /** Both nodes are instances of the same node class. */
  predicate SameClass(a: Node, b: Node) {
    || (a.ScriptNode? && b.ScriptNode?) || (a.SymbolNode? && b.SymbolNode?)
    || (a.IntegerNode? && b.IntegerNode?) || (a.FloatNode? && b.FloatNode?)
    || (a.BooleanNode? && b.BooleanNode?) || (a.StringNode? && b.StringNode?)
    || (a.VariableDeclarationNode? && b.VariableDeclarationNode?)
    || (a.FunctionDeclarationNode? && b.FunctionDeclarationNode?)
    || (a.FunctionCallNode? && b.FunctionCallNode?)
    || (a.VariableAssignmentNode? && b.VariableAssignmentNode?)
    || (a.ForIterationNode? && b.ForIterationNode?)
    || (a.WhileIterationNode? && b.WhileIterationNode?)
    || (a.IfNode? && b.IfNode?)
  }

  /** Two nodes have the same tag exactly when they are of the same class. */
  lemma TagIdentifiesClass(a: Node, b: Node)
    ensures GetType(a) == GetType(b) <==> SameClass(a, b)
  {
  }

  /** Every one of the thirteen tags is the tag of some node class. */
  lemma EveryTagUsed(t: NodeType)
    ensures exists n :: GetType(n) == t
  {
    var n := match t
      case SCRIPT => ScriptNode([])
      case SYMBOL => SymbolNode("")
      case INTEGER => IntegerNode(0)
      case FLOAT => FloatNode(0.0)
      case BOOLEAN => BooleanNode(false)
      case STRING => StringNode("")
      case VARIABLE_DECLARATION => VariableDeclarationNode("", "", ScriptNode([]))
      case FUNCTION_DECLARATION => FunctionDeclarationNode("", [], "", [])
      case FUNCTION_CALL => FunctionCallNode("", [])
      case VARIABLE_ASSIGNMENT => VariableAssignmentNode("", ScriptNode([]))
      case FOR_ITERATION => ForIterationNode("", ScriptNode([]), ScriptNode([]), ScriptNode([]), [])
      case WHILE_ITERATION => WhileIterationNode(ScriptNode([]), [])
      case IF => IfNode(ScriptNode([]), ScriptNode([]), ScriptNode([]));
    assert GetType(n) == t;
  }
}
