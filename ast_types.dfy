/**
 * The node data model of the AST library (ast.h): the closed set of node
 * tags and the one record type that every tree node shares.
 */
module AstTypes {

  datatype Option<+T> = None | Some(value: T)

  /** The C `int` of the node's integer payload. */
  newtype int32 = x: int | -0x8000_0000 <= x < 0x8000_0000

  /** The `NodeType` enumeration, in declaration order. */
  datatype NodeType =
    | FuncDef | VarDecl | Param | Block | If | While | For | Return | Assign
    | BinOp | UnOp | ConstInt | ConstChar | StrLit | Var | FuncCall | Type | Empty

  /** The number of enumerators of `NodeType`. */
  const TagCount: int := 18

  /** The C value of an enumerator: its position in the declaration, from 0. */
  function Ordinal(t: NodeType): (r: int)
    ensures 0 <= r < TagCount
  {
    match t
    case FuncDef => 0
    case VarDecl => 1
    case Param => 2
    case Block => 3
    case If => 4
    case While => 5
    case For => 6
    case Return => 7
    case Assign => 8
    case BinOp => 9
    case UnOp => 10
    case ConstInt => 11
    case ConstChar => 12
    case StrLit => 13
    case Var => 14
    case FuncCall => 15
    case Type => 16
    case Empty => 17
  }

  /** The enumerator whose C value is `i`. */
  function FromOrdinal(i: int): (t: NodeType)
    requires 0 <= i < TagCount
    ensures Ordinal(t) == i
  {
    if i == 0 then FuncDef
    else if i == 1 then VarDecl
    else if i == 2 then Param
    else if i == 3 then Block
    else if i == 4 then If
    else if i == 5 then While
    else if i == 6 then For
    else if i == 7 then Return
    else if i == 8 then Assign
    else if i == 9 then BinOp
    else if i == 10 then UnOp
    else if i == 11 then ConstInt
    else if i == 12 then ConstChar
    else if i == 13 then StrLit
    else if i == 14 then Var
    else if i == 15 then FuncCall
    else if i == 16 then Type
    else Empty
  }

  /** Distinct enumerators have distinct values, and every value 0..17 is taken. */
  lemma OrdinalBijective(t: NodeType, u: NodeType, i: int)
    ensures Ordinal(t) == Ordinal(u) <==> t == u
    ensures FromOrdinal(Ordinal(t)) == t
    ensures 0 <= i < TagCount ==> exists v :: Ordinal(v) == i
  {
    if 0 <= i < TagCount {
      assert Ordinal(FromOrdinal(i)) == i;
    }
  }

  /** The tags whose first printed line shows `str_val`. */
  predicate ShowsText(t: NodeType)
  {
    t == FuncDef || t == VarDecl || t == Var
  }

  /**
   * One tree node (`ASTNode`): a tag, an integer payload, an optional
   * string, six child links and the `next` sibling link.
   */
  class Node {
    const tag: NodeType
    var intVal: int32
    var strVal: Option<string>
    var left: Node?
    var right: Node?
    var cond: Node?
    var body: Node?
    var init: Node?
    var incr: Node?
    var next: Node?

    /** `create_node`: a fresh node with the given tag and every link and the string absent. */
    constructor (t: NodeType)
      ensures tag == t
      ensures strVal == None
      ensures left == null && right == null && cond == null && body == null
      ensures init == null && incr == null && next == null
    {
      tag := t;
      left := null;
      right := null;
      cond := null;
      body := null;
      init := null;
      incr := null;
      next := null;
      strVal := None;
    }
  }

  /** No child link of `n` is set (the `next` link is not a child link). */
  predicate NoChildren(n: Node)
    reads n
  {
    n.left == null && n.right == null && n.cond == null &&
    n.body == null && n.init == null && n.incr == null
  }
}
