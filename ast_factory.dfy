/**
 * The node factory and the sibling-list builder of ast.c: one constructor
 * per node family, each allocating a node with `create_node` and filling
 * its payload and child slots, and `append_node`, which links a node after
 * the tail of a `next` chain.
 */
module AstFactory {
  import opened AstTypes

  /**
   * The characters a C string in `buf` denotes: everything before the first
   * NUL. This is what `strdup` copies.
   */
  function CString(buf: seq<char>): (r: string)
    requires '\0' in buf
    ensures |r| < |buf| && r == buf[..|r|]
    ensures buf[|r|] == '\0' && '\0' !in r
  {
    if buf[0] == '\0' then [] else [buf[0]] + CString(buf[1..])
  }

  /** A fresh node of tag `t`: `create_node` leaves its `next` link null. */
  predicate Tagged(n: Node, t: NodeType)
    reads n
  {
    n.tag == t && n.next == null
  }

  method CreateIntNode(val: int32) returns (n: Node)
    ensures fresh(n) && Tagged(n, ConstInt) && n.intVal == val
    ensures n.strVal == None && NoChildren(n)
  {
    n := new Node(ConstInt);
    n.intVal := val;
  }

  method CreateCharNode(val: int32) returns (n: Node)
    ensures fresh(n) && Tagged(n, ConstChar) && n.intVal == val
    ensures n.strVal == None && NoChildren(n)
  {
    n := new Node(ConstChar);
    n.intVal := val;
  }

  /** The node's string is a copy of the caller's C string; `val` itself is not kept. */
  method CreateStrNode(val: array<char>) returns (n: Node)
    requires '\0' in val[..]
    ensures fresh(n) && Tagged(n, StrLit)
    ensures n.strVal == Some(CString(val[..])) && NoChildren(n)
  {
    n := new Node(StrLit);
    n.strVal := Some(CString(val[..]));
  }

  method CreateVarNode(name: array<char>) returns (n: Node)
    requires '\0' in name[..]
    ensures fresh(n) && Tagged(n, Var)
    ensures n.strVal == Some(CString(name[..])) && NoChildren(n)
  {
    n := new Node(Var);
    n.strVal := Some(CString(name[..]));
  }

  method CreateTypeNode(typeToken: int32) returns (n: Node)
    ensures fresh(n) && Tagged(n, Type) && n.intVal == typeToken
    ensures n.strVal == None && NoChildren(n)
  {
    n := new Node(Type);
    n.intVal := typeToken;
  }

  method CreateBinaryNode(op: int32, left: Node?, right: Node?) returns (n: Node)
    ensures fresh(n) && Tagged(n, BinOp) && n.intVal == op && n.strVal == None
    ensures n.left == left && n.right == right
    ensures n.cond == null && n.body == null && n.init == null && n.incr == null
  {
    n := new Node(BinOp);
    n.intVal := op;
    n.left := left;
    n.right := right;
  }

  method CreateUnaryNode(op: int32, child: Node?) returns (n: Node)
    ensures fresh(n) && Tagged(n, UnOp) && n.intVal == op && n.strVal == None
    ensures n.left == child
    ensures n.right == null && n.cond == null && n.body == null && n.init == null && n.incr == null
  {
    n := new Node(UnOp);
    n.intVal := op;
    n.left := child;
  }

  /** `left` holds the then-branch and `right` the else-branch, which may be absent. */
  method CreateIfNode(cond: Node?, thenStmt: Node?, elseStmt: Node?) returns (n: Node)
    ensures fresh(n) && Tagged(n, If) && n.strVal == None
    ensures n.cond == cond && n.left == thenStmt && n.right == elseStmt
    ensures n.body == null && n.init == null && n.incr == null
  {
    n := new Node(If);
    n.cond := cond;
    n.left := thenStmt;
    n.right := elseStmt;
  }

  method CreateWhileNode(cond: Node?, body: Node?) returns (n: Node)
    ensures fresh(n) && Tagged(n, While) && n.strVal == None
    ensures n.cond == cond && n.body == body
    ensures n.left == null && n.right == null && n.init == null && n.incr == null
  {
    n := new Node(While);
    n.cond := cond;
    n.body := body;
  }

  method CreateForNode(init: Node?, cond: Node?, incr: Node?, body: Node?) returns (n: Node)
    ensures fresh(n) && Tagged(n, For) && n.strVal == None
    ensures n.init == init && n.cond == cond && n.incr == incr && n.body == body
    ensures n.left == null && n.right == null
  {
    n := new Node(For);
    n.init := init;
    n.cond := cond;
    n.incr := incr;
    n.body := body;
  }

  /** `left` holds the return type, `right` the head of the parameter chain. */
  method CreateFuncDef(retType: Node?, name: array<char>, params: Node?, body: Node?) returns (n: Node)
    requires '\0' in name[..]
    ensures fresh(n) && Tagged(n, FuncDef)
    ensures n.strVal == Some(CString(name[..]))
    ensures n.left == retType && n.right == params && n.body == body
    ensures n.cond == null && n.init == null && n.incr == null
  {
    n := new Node(FuncDef);
    n.left := retType;
    n.strVal := Some(CString(name[..]));
    n.right := params;
    n.body := body;
  }

  /**
   * `chain` lists, in order, the nodes reached from `head` by following
   * `next` until it is null; an absent head has the empty chain.
   */
  ghost predicate IsChain(head: Node?, chain: seq<Node>)
    reads chain
  {
    if head == null then chain == []
    else
      && |chain| > 0 && chain[0] == head
      && (forall i :: 0 <= i < |chain| - 1 ==> chain[i].next == chain[i + 1])
      && chain[|chain| - 1].next == null
  }

  /** The last node of a chain, as a set: the only node whose `next` `append_node` writes. */
  function Tail(chain: seq<Node>): set<Node>
  {
    if chain == [] then {} else {chain[|chain| - 1]}
  }

  /** A `next` chain that ends in null visits no node twice. */
  lemma {:induction false} ChainDistinct(head: Node?, chain: seq<Node>, i: int, j: int)
    requires IsChain(head, chain)
    requires 0 <= i < j < |chain|
    ensures chain[i] != chain[j]
    decreases |chain| - j
  {
    if j == |chain| - 1 {
      assert chain[i].next == chain[i + 1] && chain[j].next == null;
    } else {
      ChainDistinct(head, chain, i + 1, j + 1);
      assert chain[i].next == chain[i + 1] && chain[j].next == chain[j + 1];
    }
  }

  /**
   * `append_node`: walks `next` from `head` to the tail and links `newNode`
   * after it. `newNode` keeps its own `next`, so its whole chain follows.
   * An absent head changes nothing.
   */
  method AppendNode(head: Node?, newNode: Node?, ghost chain: seq<Node>, ghost newChain: seq<Node>)
    requires IsChain(head, chain)
    modifies Tail(chain)`next
    ensures head != null ==> chain[|chain| - 1].next == newNode
    ensures head != null && old(IsChain(newNode, newChain)) &&
            (forall k :: 0 <= k < |newChain| ==> newChain[k] !in chain) ==>
              IsChain(head, chain + newChain)
  {
    if head == null {
      return;
    }
    var temp := head;
    ghost var i := 0;
    while temp.next != null
      invariant IsChain(head, chain)
      invariant 0 <= i < |chain| && temp == chain[i]
      invariant i < |chain| - 1 ==> temp.next == chain[i + 1]
      decreases |chain| - i
    {
      temp := temp.next;
      i := i + 1;
    }
    assert temp == chain[|chain| - 1];
    forall k | 0 <= k < |chain| - 1 ensures chain[k] != temp {
      ChainDistinct(head, chain, k, |chain| - 1);
    }
    temp.next := newNode;
  }
}
