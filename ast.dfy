/// The syntax tree the back end walks: one constructor per `Node` subclass.
module Ast {
  import opened Types
  import opened Tables

  /// The parser stores integer literals in a C++ `int`.
  newtype i32 = x: int | -0x8000_0000 <= x < 0x8000_0000

  datatype Node =
    | Number(value: i32)
    | Str(text: string)
    | Variable(name: string)
    | Binary(op: string, left: Node, right: Node)
    | Unary(op: string, right: Node)
    | Assign(name: string, expression: Node)
    | VarDecl(name: string, declaredType: Type, expression: Node)
    | If(condition: Node, thenBlock: Node, elseBlock: Option<Node>)
    | Block(statements: seq<Node>)
    | Loop(condition: Node, block: Node, init: Option<Node>, afterLoop: Option<Node>)
    | Macro(name: string, arg: Node)
    | Break
    | Continue

  /// Nodes built only from literals, variables, operators and macro calls:
  /// the expressions of the language.
  predicate IsExpr(n: Node) {
    match n
    case Number(_) => true
    case Str(_) => true
    case Variable(_) => true
    case Binary(_, l, r) => IsExpr(l) && IsExpr(r)
    case Unary(_, r) => IsExpr(r)
    case Macro(_, a) => IsExpr(a)
    case _ => false
  }

  /// The number of registers a node leaves allocated once its code is
  /// generated. Literals and variable loads take one; a binary operator frees
  /// its right operand's; assignment, declaration and the branch conditions free
  /// the value they consume; a macro frees its argument's and takes one back
  /// only when it yields a value; blocks and loops add up their parts.
  function Net(n: Node): int {
    match n
    case Number(_) => 1
    case Str(_) => 1
    case Variable(_) => 1
    case Binary(_, l, r) => Net(l) + Net(r) - 1
    case Unary(_, r) => Net(r)
    case Assign(_, e) => Net(e) - 1
    case VarDecl(_, _, e) => Net(e) - 1
    case If(c, t, e) => Net(c) - 1 + Net(t) + NetOptional(e)
    case Block(ss) => NetSeq(ss)
    case Loop(c, b, i, a) => NetOptional(i) + Net(c) - 1 + Net(b) + NetOptional(a)
    case Macro(name, a) => Net(a) - 1 + (if MacroYieldsValue(name) then 1 else 0)
    case Break => 0
    case Continue => 0
  }

  /// An absent child takes no register.
  function NetOptional(o: Option<Node>): int {
    match o
    case Some(x) => Net(x)
    case None => 0
  }

  function NetSeq(ss: seq<Node>): int {
    if ss == [] then 0 else Net(ss[0]) + NetSeq(ss[1..])
  }

  lemma {:induction false} NetSeqAppend(a: seq<Node>, b: seq<Node>)
    ensures NetSeq(a + b) == NetSeq(a) + NetSeq(b)
  {
    if a != [] {
      assert (a + b)[1..] == a[1..] + b;
      NetSeqAppend(a[1..], b);
    } else {
      assert a + b == b;
    }
  }

  /// `BlockNode` as the parser builds it: statements are added one at a time.
  /// `returnsValue` is recorded but never read by the back end.
  class BlockNode {
    var statements: seq<Node>
    var returnsValue: bool

    constructor ()
      ensures statements == [] && !returnsValue
    {
      statements := [];
      returnsValue := false;
    }

    /// `addStatement` appends, so statements keep the order they were added in.
    method AddStatement(statement: Node)
      modifies this
      ensures statements == old(statements) + [statement]
      ensures returnsValue == old(returnsValue)
    {
      statements := statements + [statement];
    }

    method SetReturnsValue(value: bool)
      modifies this
      ensures returnsValue == value && statements == old(statements)
    {
      returnsValue := value;
    }

    /// The tree the back end sees for this block.
    function ToNode(): (n: Node)
      reads this
      ensures n.Block? && n.statements == statements
    {
      Block(statements)
    }
  }
}
