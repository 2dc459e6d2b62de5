/**
 * Whole-library examples: trees built with the factory and `append_node`,
 * then printed. Each `...Printed` lemma states what `print_ast(root, 0)`
 * prints for a heap of the given shape; each builder method creates such a
 * heap with the factory and returns the printed lines.
 */
module AstScenarios {
  import opened AstTypes
  import opened AstFactory
  import opened AstPrinter

  /** An `Int` node holding `v`, with no children and no siblings. */
  predicate IntLeaf(n: Node, v: int32)
    reads n
  {
    n.tag == ConstInt && n.intVal == v && NoChildren(n) && n.next == null
  }

  /** The decimal text of the small values the examples use. */
  lemma SmallDecimals()
    ensures Decimal(1) == "1" && Decimal(2) == "2" && Decimal(3) == "3" && Decimal(42) == "42"
  {
    DigitDecimal(1);
    DigitDecimal(2);
    DigitDecimal(3);
    DigitDecimal(4);
    assert NatDigits(42) == NatDigits(4) + [DigitChar(2)];
  }

  /** The C strings in the NUL-terminated buffers the examples use. */
  lemma BufferStrings()
    ensures CString(['x', '\0']) == "x"
    ensures CString(['a', 'b', '\0']) == "ab"
    ensures CString(['m', 'a', 'i', 'n', '\0']) == "main"
  {
    assert CString(['\0']) == [];
    assert ['x', '\0'][1..] == ['\0'] && ['a', 'b', '\0'][1..] == ['b', '\0'] && ['b', '\0'][1..] == ['\0'];
    var main := ['m', 'a', 'i', 'n', '\0'];
    assert main[1..] == ['a', 'i', 'n', '\0'] && main[1..][1..] == ['i', 'n', '\0'];
    assert main[1..][1..][1..] == ['n', '\0'] && main[1..][1..][1..][1..] == ['\0'];
  }

  /** The indentation of the first three levels. */
  lemma ShallowIndents()
    ensures Indent(0) == "" && Indent(1) == "  " && Indent(2) == "    "
  {
  }

  /** A binary `+` of two literals prints the operator line, then both operands one level deeper. */
  lemma BinOpPrinted(plus: Node, rank: map<Node, nat>)
    requires WellFormed(rank) && plus in rank
    requires plus.tag == BinOp && plus.intVal == '+' as int32 && plus.next == null
    requires plus.left != null && IntLeaf(plus.left, 1)
    requires plus.right != null && IntLeaf(plus.right, 2)
    ensures PrintAst(plus, 0, rank) == ["BinOp: +", "  Int: 1", "  Int: 2"]
  {
    LeafLine(plus.left, 1, rank);
    LeafLine(plus.right, 1, rank);
    assert CharOf(plus.intVal as int) == '+';
    assert ChildLines(plus, 0, rank) == PrintAst(plus.left, 1, rank) + PrintAst(plus.right, 1, rank);
    LoneNode(plus, 0, rank);
    assert PrintAst(plus, 0, rank) ==
      [Indent(0) + ("BinOp: " + ['+'])]
      + ([Indent(1) + ("Int: " + Decimal(1))] + [Indent(1) + ("Int: " + Decimal(2))]);
    BinOpText();
  }

  lemma BinOpText()
    ensures [Indent(0) + ("BinOp: " + ['+'])]
      + ([Indent(1) + ("Int: " + Decimal(1))] + [Indent(1) + ("Int: " + Decimal(2))])
      == ["BinOp: +", "  Int: 1", "  Int: 2"]
  {
    SmallDecimals();
    ShallowIndents();
    assert Indent(0) + ("BinOp: " + ['+']) == "BinOp: +";
    assert Indent(1) + ("Int: " + Decimal(1)) == "  Int: 1";
    assert Indent(1) + ("Int: " + Decimal(2)) == "  Int: 2";
  }

  method BuildBinaryOp() returns (plus: Node, ghost rank: map<Node, nat>)
    ensures WellFormed(rank) && plus in rank
    ensures PrintAst(plus, 0, rank) == ["BinOp: +", "  Int: 1", "  Int: 2"]
  {
    var one := CreateIntNode(1);
    var two := CreateIntNode(2);
    plus := CreateBinaryNode('+' as int32, one, two);
    rank := map[];
    Extend(rank, one, 0);
    rank := rank[one := 0];
    Extend(rank, two, 0);
    rank := rank[two := 0];
    Extend(rank, plus, 1);
    rank := rank[plus := 1];
    BinOpPrinted(plus, rank);
  }

  /** `create_int_node(42)` alone prints exactly `Int: 42` and a newline. */
  method PrintIntLiteral() returns (out: string)
    ensures out == "Int: 42\n"
  {
    var n := CreateIntNode(42);
    ghost var rank := map[];
    Extend(rank, n, 0);
    rank := rank[n := 0];
    IntAlone(n, rank);
    SmallDecimals();
    out := Stdout(PrintAst(n, 0, rank));
  }

  /** Three literals linked by `next` print as three lines at one level, in chain order. */
  lemma ChainPrinted(a: Node, rank: map<Node, nat>)
    requires WellFormed(rank) && a in rank
    requires a.tag == ConstInt && a.intVal == 1 && NoChildren(a) && a.next != null
    requires a.next.tag == ConstInt && a.next.intVal == 2 && NoChildren(a.next) && a.next.next != null
    requires IntLeaf(a.next.next, 3)
    ensures PrintAst(a, 0, rank) == ["Int: 1", "Int: 2", "Int: 3"]
  {
    var b, c := a.next, a.next.next;
    assert ChildLines(a, 0, rank) == [] && ChildLines(b, 0, rank) == [];
    LeafLine(c, 0, rank);
    assert PrintAst(b, 0, rank) == [Indent(0) + Label(b)] + [] + PrintAst(c, 0, rank);
    assert PrintAst(a, 0, rank) == [Indent(0) + Label(a)] + [] + PrintAst(b, 0, rank);
    assert PrintAst(a, 0, rank) ==
      [Indent(0) + ("Int: " + Decimal(1))] + [] +
      ([Indent(0) + ("Int: " + Decimal(2))] + [] + [Indent(0) + ("Int: " + Decimal(3))]);
    ChainText();
  }

  lemma ChainText()
    ensures [Indent(0) + ("Int: " + Decimal(1))] + [] +
      ([Indent(0) + ("Int: " + Decimal(2))] + [] + [Indent(0) + ("Int: " + Decimal(3))])
      == ["Int: 1", "Int: 2", "Int: 3"]
  {
    SmallDecimals();
    ShallowIndents();
    assert Indent(0) + ("Int: " + Decimal(1)) == "Int: 1";
    assert Indent(0) + ("Int: " + Decimal(2)) == "Int: 2";
    assert Indent(0) + ("Int: " + Decimal(3)) == "Int: 3";
  }

  /** Two `append_node` calls on a single literal link `1 -> 2 -> 3`. */
  method LinkThree() returns (a: Node, b: Node, c: Node)
    ensures fresh(a) && a.tag == ConstInt && a.intVal == 1 && NoChildren(a) && a.next == b
    ensures fresh(b) && b.tag == ConstInt && b.intVal == 2 && NoChildren(b) && b.next == c
    ensures fresh(c) && IntLeaf(c, 3)
    ensures a != b && b != c && a != c
  {
    a := CreateIntNode(1);
    b := CreateIntNode(2);
    c := CreateIntNode(3);
    AppendNode(a, b, [a], [b]);
    AppendNode(a, c, [a, b], [c]);
  }

  /** The chain `LinkThree` builds prints its three literals in insertion order. */
  method BuildSiblingChain() returns (a: Node, ghost rank: map<Node, nat>)
    ensures WellFormed(rank) && a in rank
    ensures PrintAst(a, 0, rank) == ["Int: 1", "Int: 2", "Int: 3"]
  {
    var b, c;
    a, b, c := LinkThree();
    rank := map[];
    Extend(rank, c, 0);
    rank := rank[c := 0];
    Extend(rank, b, 1);
    rank := rank[b := 1];
    Extend(rank, a, 2);
    rank := rank[a := 2];
    ChainPrinted(a, rank);
  }

  /** The labels of a chain's nodes, in order, are those of each part. */
  lemma {:induction false} LabelsConcat(xs: seq<Node>, ys: seq<Node>)
    requires forall i :: 0 <= i < |xs| ==> (ShowsText(xs[i].tag) ==> xs[i].strVal.Some?)
    requires forall i :: 0 <= i < |ys| ==> (ShowsText(ys[i].tag) ==> ys[i].strVal.Some?)
    ensures Labels(xs + ys) == Labels(xs) + Labels(ys)
  {
    if xs == [] {
      assert xs + ys == ys;
    } else {
      assert (xs + ys)[0] == xs[0] && (xs + ys)[1..] == xs[1..] + ys;
      LabelsConcat(xs[1..], ys);
    }
  }

  /**
   * The top-level lines that `print_ast(head, level)` prints are the labels
   * of the chain from `head`, one per node, in chain order. After
   * `append_node(head, n)` the chain is the old one followed by `n`'s, so
   * `n` and its siblings print after every node that was there before.
   */
  lemma PrintedChain(head: Node?, chain: seq<Node>, level: nat, rank: map<Node, nat>)
    requires WellFormed(rank) && (head != null ==> head in rank) && IsChain(head, chain)
    requires forall i :: 0 <= i < |chain| ==> chain[i] in rank
    ensures Sections(PrintAst(head, level, rank), level) == Labels(chain)
  {
    SiblingsOfChain(head, chain, rank);
    TopSections(head, level, rank);
  }

  /** An `if` without an else-branch prints `Cond:` and `Then:` sections and no `Else:`. */
  lemma IfPrinted(node: Node, rank: map<Node, nat>)
    requires WellFormed(rank) && node in rank
    requires node.tag == If && node.next == null && node.right == null
    requires node.cond != null && node.cond.tag == Var && node.cond.strVal == Some("x")
    requires NoChildren(node.cond) && node.cond.next == null
    requires node.left != null && IntLeaf(node.left, 1)
    ensures PrintAst(node, 0, rank) == ["If", "  Cond:", "    Var: x", "  Then:", "    Int: 1"]
  {
    LeafSection("Cond:", node.cond, 0, rank);
    LeafSection("Then:", node.left, 0, rank);
    assert ChildLines(node, 0, rank) == Section("Cond:", node.cond, 0, rank) + Section("Then:", node.left, 0, rank);
    LoneNode(node, 0, rank);
    assert PrintAst(node, 0, rank) ==
      [Indent(0) + "If"]
      + ([Indent(1) + "Cond:", Indent(2) + ("Var: " + "x")]
         + [Indent(1) + "Then:", Indent(2) + ("Int: " + Decimal(1))]);
    IfText();
  }

  lemma IfText()
    ensures [Indent(0) + "If"]
      + ([Indent(1) + "Cond:", Indent(2) + ("Var: " + "x")]
         + [Indent(1) + "Then:", Indent(2) + ("Int: " + Decimal(1))])
      == ["If", "  Cond:", "    Var: x", "  Then:", "    Int: 1"]
  {
    SmallDecimals();
    ShallowIndents();
    assert Indent(0) + "If" == "If";
    assert Indent(1) + "Cond:" == "  Cond:";
    assert Indent(2) + ("Var: " + "x") == "    Var: x";
    assert Indent(1) + "Then:" == "  Then:";
    assert Indent(2) + ("Int: " + Decimal(1)) == "    Int: 1";
  }

  /** `create_var_node` on a buffer holding the C string `x`. */
  method CreateVarX() returns (v: Node)
    ensures fresh(v) && v.tag == Var && v.strVal == Some("x") && NoChildren(v) && v.next == null
  {
    var name := new char[] ['x', '\0'];
    assert name[..] == ['x', '\0'];
    BufferStrings();
    v := CreateVarNode(name);
  }

  method BuildIfWithoutElse() returns (node: Node, ghost rank: map<Node, nat>)
    ensures WellFormed(rank) && node in rank
    ensures PrintAst(node, 0, rank) == ["If", "  Cond:", "    Var: x", "  Then:", "    Int: 1"]
  {
    var cond := CreateVarX();
    var thenStmt := CreateIntNode(1);
    node := CreateIfNode(cond, thenStmt, null);
    rank := map[];
    Extend(rank, cond, 0);
    rank := rank[cond := 0];
    Extend(rank, thenStmt, 0);
    rank := rank[thenStmt := 0];
    Extend(rank, node, 1);
    rank := rank[node := 1];
    IfPrinted(node, rank);
  }

  /**
   * A function definition with no parameters: the `Params:` label is still
   * printed, with nothing under it.
   */
  lemma FuncDefPrinted(def: Node, rank: map<Node, nat>)
    requires WellFormed(rank) && def in rank
    requires def.tag == FuncDef && def.strVal == Some("main") && def.next == null && def.right == null
    requires def.left != null && def.left.tag == Type && def.left.intVal == 3
    requires NoChildren(def.left) && def.left.next == null
    requires def.body != null && def.body.tag == Block && NoChildren(def.body) && def.body.next == null
    ensures PrintAst(def, 0, rank) ==
      ["FunctionDef: main", "  Return Type:", "    Type (token 3)", "  Params:", "  Body:", "    Block"]
  {
    LeafSection("Return Type:", def.left, 0, rank);
    LeafSection("Params:", def.right, 0, rank);
    LeafSection("Body:", def.body, 0, rank);
    assert ChildLines(def, 0, rank) ==
      Section("Return Type:", def.left, 0, rank) + Section("Params:", def.right, 0, rank)
      + Section("Body:", def.body, 0, rank);
    LoneNode(def, 0, rank);
    assert PrintAst(def, 0, rank) ==
      [Indent(0) + ("FunctionDef: " + "main")]
      + ([Indent(1) + "Return Type:", Indent(2) + ("Type (token " + Decimal(3) + ")")]
         + [Indent(1) + "Params:"]
         + [Indent(1) + "Body:", Indent(2) + "Block"]);
    FuncDefText();
  }

  lemma FuncDefText()
    ensures [Indent(0) + ("FunctionDef: " + "main")]
      + ([Indent(1) + "Return Type:", Indent(2) + ("Type (token " + Decimal(3) + ")")]
         + [Indent(1) + "Params:"]
         + [Indent(1) + "Body:", Indent(2) + "Block"])
      == ["FunctionDef: main", "  Return Type:", "    Type (token 3)", "  Params:", "  Body:", "    Block"]
  {
    FuncDefLineTexts();
  }

  lemma FuncDefLineTexts()
    ensures Indent(0) + ("FunctionDef: " + "main") == "FunctionDef: main"
    ensures Indent(1) + "Return Type:" == "  Return Type:"
    ensures Indent(2) + ("Type (token " + Decimal(3) + ")") == "    Type (token 3)"
    ensures Indent(1) + "Params:" == "  Params:"
    ensures Indent(1) + "Body:" == "  Body:"
    ensures Indent(2) + "Block" == "    Block"
  {
    DigitDecimal(3);
    ShallowIndents();
  }

  /** `create_func_def` of `main` with no parameters, the name passed in a caller's buffer. */
  method CreateMain(retType: Node?, body: Node?) returns (def: Node)
    ensures fresh(def) && def.tag == FuncDef && def.strVal == Some("main") && def.next == null
    ensures def.left == retType && def.right == null && def.body == body
    ensures def.cond == null && def.init == null && def.incr == null
  {
    var name := new char[] ['m', 'a', 'i', 'n', '\0'];
    assert name[..] == ['m', 'a', 'i', 'n', '\0'];
    BufferStrings();
    def := CreateFuncDef(retType, name, null, body);
  }

  method BuildFuncDefWithoutParams() returns (def: Node, ghost rank: map<Node, nat>)
    ensures WellFormed(rank) && def in rank
    ensures PrintAst(def, 0, rank) ==
      ["FunctionDef: main", "  Return Type:", "    Type (token 3)", "  Params:", "  Body:", "    Block"]
  {
    var ret := CreateTypeNode(3);
    var block := new Node(Block);
    def := CreateMain(ret, block);
    rank := map[];
    Extend(rank, ret, 0);
    rank := rank[ret := 0];
    Extend(rank, block, 0);
    rank := rank[block := 0];
    Extend(rank, def, 1);
    rank := rank[def := 1];
    FuncDefPrinted(def, rank);
  }

  /** The node keeps its own copy of the name: overwriting the caller's buffer afterwards leaves it as it was. */
  method CopyIsIndependent() returns (kept: Option<string>)
    ensures kept == Some("ab")
  {
    var buf := new char[] ['a', 'b', '\0'];
    assert buf[..] == ['a', 'b', '\0'];
    BufferStrings();
    var v := CreateVarNode(buf);
    buf[0] := 'z';
    kept := v.strVal;
  }
}
