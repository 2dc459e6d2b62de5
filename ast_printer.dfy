/**
 * The tree printer of ast.c (`print_indent`, `print_ast`). What the C code
 * writes to stdout is modelled as the sequence of lines it produces: each
 * `printf` format ends in a newline, so the text on standard output is the
 * lines below, each followed by one newline character (`Stdout`).
 */
module AstPrinter {
  import opened AstTypes
  import opened AstFactory

  /** The exact text written to standard output for a sequence of lines. */
  function Stdout(lines: seq<string>): string
  {
    if lines == [] then [] else lines[0] + "\n" + Stdout(lines[1..])
  }

  /** Printing two runs of lines one after the other writes the two texts one after the other. */
  lemma {:induction false} StdoutConcat(a: seq<string>, b: seq<string>)
    ensures Stdout(a + b) == Stdout(a) + Stdout(b)
  {
    if a == [] {
      assert a + b == b;
    } else {
      var ab := a + b;
      assert ab[0] == a[0];
      assert ab[1..] == a[1..] + b;
      StdoutConcat(a[1..], b);
      assert Stdout(ab) == a[0] + "\n" + (Stdout(a[1..]) + Stdout(b));
    }
  }

  // ---------------------------------------------------------------------
  // Indentation
  // ---------------------------------------------------------------------

  /** `print_indent(level)`: two spaces per level; none for a level of 0 or less. */
  function Indent(level: int): (s: string)
    ensures |s| == if level <= 0 then 0 else 2 * level
    ensures forall i :: 0 <= i < |s| ==> s[i] == ' '
  {
    if level <= 0 then "" else Indent(level - 1) + "  "
  }

  /** `print_indent`, with its counted loop; the spaces are returned instead of printed. */
  method PrintIndent(level: int) returns (s: string)
    ensures s == Indent(level)
  {
    s := "";
    var i := 0;
    while i < level
      invariant 0 <= i && (i <= level || i == 0)
      invariant s == Indent(i)
    {
      s := s + "  ";
      i := i + 1;
    }
  }

  /** `s` starts with at least `2 * d` spaces. */
  predicate Indented(s: string, d: nat)
  {
    2 * d <= |s| && forall i :: 0 <= i < 2 * d ==> s[i] == ' '
  }

  /** `s` is indented by exactly `d` levels: `2 * d` spaces then something else. */
  predicate AtDepth(s: string, d: nat)
  {
    Indented(s, d) && 2 * d < |s| && s[2 * d] != ' '
  }

  /** The lines at depth exactly `d`, with their indentation removed, in order. */
  function Sections(lines: seq<string>, d: nat): seq<string>
  {
    if lines == [] then []
    else (if AtDepth(lines[0], d) then [lines[0][2 * d..]] else []) + Sections(lines[1..], d)
  }

  lemma {:induction false} SectionsConcat(a: seq<string>, b: seq<string>, d: nat)
    ensures Sections(a + b, d) == Sections(a, d) + Sections(b, d)
  {
    if a == [] {
      assert a + b == b;
    } else {
      var ab := a + b;
      assert ab[0] == a[0];
      assert ab[1..] == a[1..] + b;
      SectionsConcat(a[1..], b, d);
      var first := if AtDepth(a[0], d) then [a[0][2 * d..]] else [];
      assert Sections(ab, d) == first + (Sections(a[1..], d) + Sections(b, d));
      assert Sections(a, d) == first + Sections(a[1..], d);
    }
  }

  /** `SectionsConcat`, with the sections of the two parts named. */
  lemma JoinSections(a: seq<string>, b: seq<string>, d: nat, x: seq<string>, y: seq<string>)
    requires Sections(a, d) == x && Sections(b, d) == y
    ensures Sections(a + b, d) == x + y
  {
    SectionsConcat(a, b, d);
  }

  /** Appending lines that hold no section of depth `d` adds none. */
  lemma JoinNoSections(a: seq<string>, b: seq<string>, d: nat, x: seq<string>)
    requires Sections(a, d) == x && Sections(b, d) == []
    ensures Sections(a + b, d) == x
  {
    SectionsConcat(a, b, d);
    assert x + [] == x;
  }

  /** Lines that are all indented deeper than `d` hold no section of depth `d`. */
  lemma {:induction false} SectionsOfDeeper(lines: seq<string>, d: nat, m: nat)
    requires d < m
    requires forall i :: 0 <= i < |lines| ==> Indented(lines[i], m)
    ensures Sections(lines, d) == []
  {
    if lines != [] {
      assert lines[0][2 * d] == ' ';
      SectionsOfDeeper(lines[1..], d, m);
    }
  }

  // ---------------------------------------------------------------------
  // printf conversions
  // ---------------------------------------------------------------------

  /** `%c` of an `int`: the argument converted to `unsigned char`, i.e. taken modulo 256. */
  function CharOf(v: int): (c: char)
    ensures 0 <= c as int < 256
    ensures c as int % 256 == v % 256
  {
    (v % 256) as char
  }

  function DigitChar(d: int): (c: char)
    requires 0 <= d < 10
    ensures '0' <= c <= '9' && c as int - '0' as int == d
  {
    (d + '0' as int) as char
  }

  /** The decimal digits of `n`, most significant first, without leading zeros. */
  function NatDigits(n: nat): (s: string)
    ensures |s| > 0 && (forall i :: 0 <= i < |s| ==> '0' <= s[i] <= '9')
    ensures s[0] == '0' ==> n == 0
  {
    if n < 10 then [DigitChar(n)] else NatDigits(n / 10) + [DigitChar(n % 10)]
  }

  /** `%d`: an optional minus sign, then the digits of the magnitude. */
  function Decimal(v: int): (s: string)
    ensures |s| > 0 && s[0] != ' '
    ensures (v < 0) == (s[0] == '-')
  {
    if v < 0 then "-" + NatDigits(-v) else NatDigits(v)
  }

  /** The number a string of decimal digits denotes (the reading back of `NatDigits`). */
  function DigitsValue(s: string): nat
  {
    if s == [] then 0
    else
      var d := s[|s| - 1] as int - '0' as int;
      DigitsValue(s[..|s| - 1]) * 10 + (if 0 <= d < 10 then d else 0)
  }

  lemma {:induction false} NatDigitsValue(n: nat)
    ensures DigitsValue(NatDigits(n)) == n
  {
    if n >= 10 {
      var s := NatDigits(n);
      assert s[..|s| - 1] == NatDigits(n / 10);
      NatDigitsValue(n / 10);
    }
  }

  /** Distinct natural numbers have distinct digit strings. */
  lemma NatDigitsInjective(m: nat, n: nat)
    requires NatDigits(m) == NatDigits(n)
    ensures m == n
  {
    NatDigitsValue(m);
    NatDigitsValue(n);
  }

  /** Distinct payloads print as distinct `%d` texts. */
  lemma DecimalInjective(a: int, b: int)
    requires Decimal(a) == Decimal(b)
    ensures a == b
  {
    if a < 0 {
      assert b < 0;
      assert NatDigits(-a) == Decimal(a)[1..] == Decimal(b)[1..] == NatDigits(-b);
      NatDigitsInjective(-a, -b);
    } else {
      NatDigitsInjective(a, b);
    }
  }

  // ---------------------------------------------------------------------
  // Acyclic node graphs
  // ---------------------------------------------------------------------

  /** `c` is absent, or a node of the graph ranked strictly below `x`. */
  predicate Below(rank: map<Node, nat>, x: Node, c: Node?)
  {
    x in rank && (c != null ==> c in rank && rank[c] < rank[x])
  }

  /**
   * The nodes of `rank` form a finite acyclic graph closed under all seven
   * links (every link goes to a node of lower rank), and every node whose
   * first line shows `str_val` has a string (a null `%s` argument is
   * undefined in C).
   */
  ghost predicate WellFormed(rank: map<Node, nat>)
    reads rank.Keys
  {
    forall x {:trigger x.tag} {:trigger x.left} {:trigger x.right} {:trigger x.cond}
             {:trigger x.body} {:trigger x.init} {:trigger x.incr} {:trigger x.next} :: x in rank ==>
      && Below(rank, x, x.left) && Below(rank, x, x.right)
      && Below(rank, x, x.cond) && Below(rank, x, x.body)
      && Below(rank, x, x.init) && Below(rank, x, x.incr)
      && Below(rank, x, x.next)
      && (ShowsText(x.tag) ==> x.strVal.Some?)
  }

  /** `c` is absent, or a node of the graph ranked strictly below `r`. */
  predicate RankedBelow(rank: map<Node, nat>, c: Node?, r: nat)
  {
    c == null || (c in rank && rank[c] < r)
  }

  /**
   * Trees are built bottom-up: a node whose links all lead to nodes already
   * in the graph, ranked below `r`, can join the graph at rank `r`.
   */
  lemma Extend(rank: map<Node, nat>, x: Node, r: nat)
    requires WellFormed(rank) && x !in rank
    requires RankedBelow(rank, x.left, r) && RankedBelow(rank, x.right, r)
    requires RankedBelow(rank, x.cond, r) && RankedBelow(rank, x.body, r)
    requires RankedBelow(rank, x.init, r) && RankedBelow(rank, x.incr, r)
    requires RankedBelow(rank, x.next, r)
    requires ShowsText(x.tag) ==> x.strVal.Some?
    ensures WellFormed(rank[x := r])
  {
    var grown := rank[x := r];
    forall y | y in grown
      ensures Below(grown, y, y.left) && Below(grown, y, y.right)
      ensures Below(grown, y, y.cond) && Below(grown, y, y.body)
      ensures Below(grown, y, y.init) && Below(grown, y, y.incr)
      ensures Below(grown, y, y.next)
      ensures ShowsText(y.tag) ==> y.strVal.Some?
    {
      if y != x {
        assert y in rank;
      }
    }
  }

  // ---------------------------------------------------------------------
  // print_ast
  // ---------------------------------------------------------------------

  /** The text of a node's first line, after its indentation: the `printf` of its `switch` arm. */
  function Label(x: Node): (s: string)
    reads x
    requires ShowsText(x.tag) ==> x.strVal.Some?
    ensures |s| > 0 && s[0] != ' '
  {
    match x.tag
    case FuncDef => "FunctionDef: " + x.strVal.value
    case VarDecl => "VarDecl: " + x.strVal.value
    case Block => "Block"
    case If => "If"
    case While => "While"
    case For => "For"
    case Return => "Return"
    case Assign => "Assign"
    case BinOp => "BinOp: " + [CharOf(x.intVal as int)]
    case UnOp => "UnOp: " + [CharOf(x.intVal as int)]
    case ConstInt => "Int: " + Decimal(x.intVal as int)
    case ConstChar => "Char: '" + [CharOf(x.intVal as int)] + "'"
    case Var => "Var: " + x.strVal.value
    case Type => "Type (token " + Decimal(x.intVal as int) + ")"
    case _ => "Unknown Node"
  }

  /**
   * A label holds no newline, so it is one physical line on standard
   * output, unless a `%s` string holds one or a `%c` payload is 10 modulo
   * 256 (the byte of `'\n'`).
   */
  lemma LabelOneLine(x: Node)
    requires ShowsText(x.tag) ==> x.strVal.Some? && '\n' !in x.strVal.value
    requires x.tag in {BinOp, UnOp, ConstChar} ==> x.intVal as int % 256 != 10
    ensures '\n' !in Label(x)
  {
    match x.tag
    case FuncDef => NoNewlineJoin("FunctionDef: ", x.strVal.value);
    case VarDecl => NoNewlineJoin("VarDecl: ", x.strVal.value);
    case Var => NoNewlineJoin("Var: ", x.strVal.value);
    case BinOp => NoNewlineJoin("BinOp: ", [CharOf(x.intVal as int)]);
    case UnOp => NoNewlineJoin("UnOp: ", [CharOf(x.intVal as int)]);
    case ConstChar =>
      NoNewlineJoin("Char: '", [CharOf(x.intVal as int)]);
      NoNewlineJoin("Char: '" + [CharOf(x.intVal as int)], "'");
    case ConstInt =>
      DecimalOneLine(x.intVal as int);
      NoNewlineJoin("Int: ", Decimal(x.intVal as int));
    case Type =>
      DecimalOneLine(x.intVal as int);
      NoNewlineJoin("Type (token ", Decimal(x.intVal as int));
      NoNewlineJoin("Type (token " + Decimal(x.intVal as int), ")");
    case _ =>
  }

  lemma NoNewlineJoin(a: string, b: string)
    requires '\n' !in a && '\n' !in b
    ensures '\n' !in a + b
  {
  }

  /** `%d` text holds no newline. */
  lemma DecimalOneLine(v: int)
    ensures '\n' !in Decimal(v)
  {
  }

  /**
   * `print_ast(node, level)`: nothing for an absent node; otherwise the
   * node's label line at `level`, the children its tag shows, and then its
   * `next` siblings at the same level.
   */
  function PrintAst(node: Node?, level: int, ghost rank: map<Node, nat>): (lines: seq<string>)
    reads rank.Keys
    requires WellFormed(rank) && (node != null ==> node in rank)
    decreases if node == null then 0 else rank[node] + 1, 1
  {
    if node == null then []
    else
      [Indent(level) + Label(node)] + ChildLines(node, level, rank)
      + (if node.next != null then PrintAst(node.next, level, rank) else [])
  }

  /**
   * What the `switch` arm of `x`'s tag prints after the label line: labelled
   * child sections (`Section`), or children printed directly at `level + 1`.
   */
  function ChildLines(x: Node, level: int, ghost rank: map<Node, nat>): (lines: seq<string>)
    reads rank.Keys
    requires WellFormed(rank) && x in rank
    decreases rank[x] + 1, 0
  {
    match x.tag
    case FuncDef =>
      Section("Return Type:", x.left, level, rank)
      + Section("Params:", x.right, level, rank)
      + Section("Body:", x.body, level, rank)
    case VarDecl =>
      PrintAst(x.left, level + 1, rank)
      + (if x.right != null then Section("Initializer:", x.right, level, rank) else [])
    case Block =>
      PrintAst(x.left, level + 1, rank)
    case If =>
      Section("Cond:", x.cond, level, rank)
      + Section("Then:", x.left, level, rank)
      + (if x.right != null then Section("Else:", x.right, level, rank) else [])
    case While =>
      Section("Cond:", x.cond, level, rank)
      + Section("Body:", x.body, level, rank)
    case For =>
      Section("Init:", x.init, level, rank)
      + Section("Cond:", x.cond, level, rank)
      + Section("Incr:", x.incr, level, rank)
      + Section("Body:", x.body, level, rank)
    case Return =>
      PrintAst(x.left, level + 1, rank)
    case Assign =>
      PrintAst(x.left, level + 1, rank) + PrintAst(x.right, level + 1, rank)
    case BinOp =>
      PrintAst(x.left, level + 1, rank) + PrintAst(x.right, level + 1, rank)
    case UnOp =>
      PrintAst(x.left, level + 1, rank)
    case _ =>
      []
  }

  /**
   * One labelled child section of a node printed at `level`: `print_indent(level + 1)`,
   * the label, then `print_ast(child, level + 2)`.
   */
  function Section(title: string, child: Node?, level: int, ghost rank: map<Node, nat>): (lines: seq<string>)
    reads rank.Keys
    requires WellFormed(rank) && (child != null ==> child in rank)
    decreases if child == null then 0 else rank[child] + 1, 2
  {
    [Indent(level + 1) + title] + PrintAst(child, level + 2, rank)
  }

  // ---------------------------------------------------------------------
  // Properties of print_ast
  // ---------------------------------------------------------------------

  /** The nodes of the `next` chain that starts at `node`, in order. */
  ghost function Siblings(node: Node?, rank: map<Node, nat>): (xs: seq<Node>)
    reads rank.Keys
    requires WellFormed(rank) && (node != null ==> node in rank)
    ensures forall i :: 0 <= i < |xs| ==> xs[i] in rank
    decreases if node == null then 0 else rank[node] + 1
  {
    if node == null then [] else [node] + Siblings(node.next, rank)
  }

  /** The first-line labels of the nodes `xs`, in order. */
  ghost function Labels(xs: seq<Node>): seq<string>
    reads xs
    requires forall i :: 0 <= i < |xs| ==> (ShowsText(xs[i].tag) ==> xs[i].strVal.Some?)
  {
    if xs == [] then [] else [Label(xs[0])] + Labels(xs[1..])
  }

  /** A `next` chain inside a well-formed graph is exactly the sibling sequence `print_ast` follows. */
  lemma {:induction false} SiblingsOfChain(node: Node?, chain: seq<Node>, rank: map<Node, nat>)
    requires WellFormed(rank) && (node != null ==> node in rank)
    requires IsChain(node, chain)
    ensures Siblings(node, rank) == chain
    decreases |chain|
  {
    if node != null {
      if |chain| == 1 {
        assert node.next == null;
      } else {
        assert node.next == chain[1];
        assert IsChain(node.next, chain[1..]);
        SiblingsOfChain(node.next, chain[1..], rank);
      }
    }
  }

  /** Every line of `lines` is indented by at least `d` levels. */
  ghost predicate AllIndented(lines: seq<string>, d: nat)
  {
    forall i :: 0 <= i < |lines| ==> Indented(lines[i], d)
  }

  lemma IndentedJoin(a: seq<string>, b: seq<string>, d: nat)
    requires AllIndented(a, d) && AllIndented(b, d)
    ensures AllIndented(a + b, d)
  {
    forall i | 0 <= i < |a + b| ensures Indented((a + b)[i], d) {
      if i >= |a| { assert (a + b)[i] == b[i - |a|]; }
    }
  }

  /** Every line of `print_ast(node, level)` is indented by at least `level` levels. */
  lemma {:induction false} PrintAstIndented(node: Node?, level: nat, rank: map<Node, nat>)
    requires WellFormed(rank) && (node != null ==> node in rank)
    ensures AllIndented(PrintAst(node, level, rank), level)
    decreases if node == null then 0 else rank[node] + 1, 2
  {
    if node != null {
      var first := [Indent(level) + Label(node)];
      var own := ChildLines(node, level, rank);
      var rest := if node.next != null then PrintAst(node.next, level, rank) else [];
      ChildLinesIndented(node, level, rank);
      PrintAstIndented(node.next, level, rank);
      IndentedJoin(first, own, level);
      IndentedJoin(first + own, rest, level);
    }
  }

  /** Everything the `switch` arm prints is at least one level deeper than the node's label. */
  lemma {:induction false} ChildLinesIndented(x: Node, level: nat, rank: map<Node, nat>)
    requires WellFormed(rank) && x in rank
    ensures AllIndented(ChildLines(x, level, rank), level + 1)
    decreases rank[x] + 1, 1
  {
    match x.tag
    case FuncDef => FuncDefIndented(x, level, rank);
    case If => IfIndented(x, level, rank);
    case While => WhileIndented(x, level, rank);
    case For => ForIndented(x, level, rank);
    case VarDecl => VarDeclIndented(x, level, rank);
    case Assign => PairIndented(x, level, rank);
    case BinOp => PairIndented(x, level, rank);
    case Block => SingleIndented(x, level, rank);
    case Return => SingleIndented(x, level, rank);
    case UnOp => SingleIndented(x, level, rank);
    case _ =>
  }

  lemma {:induction false} VarDeclIndented(x: Node, level: nat, rank: map<Node, nat>)
    requires WellFormed(rank) && x in rank && x.tag == VarDecl
    ensures AllIndented(ChildLines(x, level, rank), level + 1)
    decreases rank[x] + 1, 0
  {
    var declared := PrintAst(x.left, level + 1, rank);
    PrintAstIndented(x.left, level + 1, rank);
    if x.right != null {
      var init := Section("Initializer:", x.right, level, rank);
      SectionIndented("Initializer:", x.right, level, rank);
      assert ChildLines(x, level, rank) == declared + init;
      IndentedJoin(declared, init, level + 1);
    } else {
      assert ChildLines(x, level, rank) == declared + [];
      assert declared + [] == declared;
    }
  }

  /** `Assign` and `BinOp` print `left` then `right` at `level + 1`. */
  lemma {:induction false} PairIndented(x: Node, level: nat, rank: map<Node, nat>)
    requires WellFormed(rank) && x in rank && (x.tag == Assign || x.tag == BinOp)
    ensures AllIndented(ChildLines(x, level, rank), level + 1)
    decreases rank[x] + 1, 0
  {
    PrintAstIndented(x.left, level + 1, rank);
    PrintAstIndented(x.right, level + 1, rank);
    IndentedJoin(PrintAst(x.left, level + 1, rank), PrintAst(x.right, level + 1, rank), level + 1);
  }

  /** `Block`, `Return` and `UnOp` print only `left`, at `level + 1`. */
  lemma {:induction false} SingleIndented(x: Node, level: nat, rank: map<Node, nat>)
    requires WellFormed(rank) && x in rank && (x.tag == Block || x.tag == Return || x.tag == UnOp)
    ensures AllIndented(ChildLines(x, level, rank), level + 1)
    decreases rank[x] + 1, 0
  {
    PrintAstIndented(x.left, level + 1, rank);
  }

  lemma {:induction false} FuncDefIndented(x: Node, level: nat, rank: map<Node, nat>)
    requires WellFormed(rank) && x in rank && x.tag == FuncDef
    ensures AllIndented(ChildLines(x, level, rank), level + 1)
    decreases rank[x] + 1, 0
  {
    var s1 := Section("Return Type:", x.left, level, rank);
    var s2 := Section("Params:", x.right, level, rank);
    var s3 := Section("Body:", x.body, level, rank);
    SectionIndented("Return Type:", x.left, level, rank);
    SectionIndented("Params:", x.right, level, rank);
    SectionIndented("Body:", x.body, level, rank);
    IndentedJoin(s1, s2, level + 1);
    IndentedJoin(s1 + s2, s3, level + 1);
  }

  lemma {:induction false} IfIndented(x: Node, level: nat, rank: map<Node, nat>)
    requires WellFormed(rank) && x in rank && x.tag == If
    ensures AllIndented(ChildLines(x, level, rank), level + 1)
    decreases rank[x] + 1, 0
  {
    var s1 := Section("Cond:", x.cond, level, rank);
    var s2 := Section("Then:", x.left, level, rank);
    var s3 := if x.right != null then Section("Else:", x.right, level, rank) else [];
    SectionIndented("Cond:", x.cond, level, rank);
    SectionIndented("Then:", x.left, level, rank);
    SectionIndented("Else:", x.right, level, rank);
    IndentedJoin(s1, s2, level + 1);
    IndentedJoin(s1 + s2, s3, level + 1);
  }

  lemma {:induction false} WhileIndented(x: Node, level: nat, rank: map<Node, nat>)
    requires WellFormed(rank) && x in rank && x.tag == While
    ensures AllIndented(ChildLines(x, level, rank), level + 1)
    decreases rank[x] + 1, 0
  {
    SectionIndented("Cond:", x.cond, level, rank);
    SectionIndented("Body:", x.body, level, rank);
    IndentedJoin(Section("Cond:", x.cond, level, rank), Section("Body:", x.body, level, rank), level + 1);
  }

  lemma {:induction false} ForIndented(x: Node, level: nat, rank: map<Node, nat>)
    requires WellFormed(rank) && x in rank && x.tag == For
    ensures AllIndented(ChildLines(x, level, rank), level + 1)
    decreases rank[x] + 1, 0
  {
    var s1 := Section("Init:", x.init, level, rank);
    var s2 := Section("Cond:", x.cond, level, rank);
    var s3 := Section("Incr:", x.incr, level, rank);
    var s4 := Section("Body:", x.body, level, rank);
    SectionIndented("Init:", x.init, level, rank);
    SectionIndented("Cond:", x.cond, level, rank);
    SectionIndented("Incr:", x.incr, level, rank);
    SectionIndented("Body:", x.body, level, rank);
    IndentedJoin(s1, s2, level + 1);
    IndentedJoin(s1 + s2, s3, level + 1);
    IndentedJoin(s1 + s2 + s3, s4, level + 1);
  }

  /** A labelled section of a node at `level` is indented at least `level + 1` levels. */
  lemma {:induction false} SectionIndented(title: string, c: Node?, level: nat, rank: map<Node, nat>)
    requires WellFormed(rank) && (c != null ==> c in rank)
    ensures AllIndented(Section(title, c, level, rank), level + 1)
    decreases if c == null then 0 else rank[c] + 1, 3
  {
    var inner := PrintAst(c, level + 2, rank);
    PrintAstIndented(c, level + 2, rank);
    assert AllIndented(inner, level + 1);
    IndentedJoin([Indent(level + 1) + title], inner, level + 1);
  }

  /**
   * The lines of `print_ast(node, level)` at depth exactly `level` are the
   * labels of `node` and of each of its `next` siblings, in chain order:
   * siblings are printed as a flat sequence at the caller's level.
   */
  lemma {:induction false} TopSections(node: Node?, level: nat, rank: map<Node, nat>)
    requires WellFormed(rank) && (node != null ==> node in rank)
    ensures Sections(PrintAst(node, level, rank), level) == Labels(Siblings(node, rank))
    decreases if node == null then 0 else rank[node] + 1
  {
    if node != null {
      var first := Indent(level) + Label(node);
      var own := ChildLines(node, level, rank);
      var rest := if node.next != null then PrintAst(node.next, level, rank) else [];
      ChildLinesIndented(node, level, rank);
      SectionsOfDeeper(own, level, level + 1);
      TitleLine(Label(node), level);
      JoinNoSections([first], own, level, [Label(node)]);
      TopSections(node.next, level, rank);
      JoinSections([first] + own, rest, level, [Label(node)], Labels(Siblings(node.next, rank)));
      LabelsCons(node, Siblings(node.next, rank));
    }
  }

  lemma LabelsCons(x: Node, xs: seq<Node>)
    requires ShowsText(x.tag) ==> x.strVal.Some?
    requires forall i :: 0 <= i < |xs| ==> (ShowsText(xs[i].tag) ==> xs[i].strVal.Some?)
    ensures Labels([x] + xs) == [Label(x)] + Labels(xs)
  {
    assert ([x] + xs)[0] == x && ([x] + xs)[1..] == xs;
  }


  /**
   * The sections a node's `switch` arm shows one level below its label, by
   * tag: the fixed labels of the labelled arms (only `Else:` and `Initializer:`
   * depend on whether `right` is set), the labels of the directly printed
   * children's sibling chains for the other arms, and nothing for the tags
   * without a `case`.
   */
  ghost function ShownSections(x: Node, rank: map<Node, nat>): seq<string>
    reads rank.Keys
    requires WellFormed(rank) && x in rank
  {
    match x.tag
    case FuncDef => ["Return Type:"] + ["Params:"] + ["Body:"]
    case VarDecl =>
      Labels(Siblings(x.left, rank)) + (if x.right != null then ["Initializer:"] else [])
    case If => ["Cond:"] + ["Then:"] + (if x.right != null then ["Else:"] else [])
    case While => ["Cond:"] + ["Body:"]
    case For => ["Init:"] + ["Cond:"] + ["Incr:"] + ["Body:"]
    case Assign => Labels(Siblings(x.left, rank)) + Labels(Siblings(x.right, rank))
    case BinOp => Labels(Siblings(x.left, rank)) + Labels(Siblings(x.right, rank))
    case Block => Labels(Siblings(x.left, rank))
    case Return => Labels(Siblings(x.left, rank))
    case UnOp => Labels(Siblings(x.left, rank))
    case _ => []
  }

  /** A title after exactly `d` levels of indentation is one section of depth `d`: the title. */
  lemma TitleLine(title: string, d: nat)
    requires |title| > 0 && title[0] != ' '
    ensures AtDepth(Indent(d) + title, d) && (Indent(d) + title)[2 * d..] == title
    ensures Sections([Indent(d) + title], d) == [title]
  {
    var line := Indent(d) + title;
    var lines: seq<string> := [line];
    assert line[2 * d..] == title;
    assert lines[1..] == [];
  }


  /** A labelled section shows exactly its label one level below the node. */
  lemma SectionShows(title: string, c: Node?, level: nat, rank: map<Node, nat>)
    requires WellFormed(rank) && (c != null ==> c in rank)
    requires |title| > 0 && title[0] != ' '
    ensures Sections(Section(title, c, level, rank), level + 1) == [title]
  {
    var inner := PrintAst(c, level + 2, rank);
    PrintAstIndented(c, level + 2, rank);
    SectionsOfDeeper(inner, level + 1, level + 2);
    TitleLine(title, level + 1);
    JoinNoSections([Indent(level + 1) + title], inner, level + 1, [title]);
  }


  /**
   * Exactly the sections `ShownSections` prescribes appear one level below
   * a node's label, in that order: no more, no fewer.
   */
  lemma ChildSections(x: Node, level: nat, rank: map<Node, nat>)
    requires WellFormed(rank) && x in rank
    ensures Sections(ChildLines(x, level, rank), level + 1) == ShownSections(x, rank)
  {
    match x.tag
    case FuncDef => FuncDefSections(x, level, rank);
    case If => IfSections(x, level, rank);
    case While => WhileSections(x, level, rank);
    case For => ForSections(x, level, rank);
    case VarDecl => VarDeclSections(x, level, rank);
    case Assign => PairSections(x, level, rank);
    case BinOp => PairSections(x, level, rank);
    case Block => TopSections(x.left, level + 1, rank);
    case Return => TopSections(x.left, level + 1, rank);
    case UnOp => TopSections(x.left, level + 1, rank);
    case _ =>
  }

  lemma FuncDefSections(x: Node, level: nat, rank: map<Node, nat>)
    requires WellFormed(rank) && x in rank && x.tag == FuncDef
    ensures Sections(ChildLines(x, level, rank), level + 1) == ShownSections(x, rank)
  {
    var d := level + 1;
    var s1 := Section("Return Type:", x.left, level, rank);
    var s2 := Section("Params:", x.right, level, rank);
    var s3 := Section("Body:", x.body, level, rank);
    assert ChildLines(x, level, rank) == s1 + s2 + s3;
    SectionShows("Return Type:", x.left, level, rank);
    SectionShows("Params:", x.right, level, rank);
    SectionShows("Body:", x.body, level, rank);
    JoinSections(s1, s2, d, ["Return Type:"], ["Params:"]);
    JoinSections(s1 + s2, s3, d, ["Return Type:"] + ["Params:"], ["Body:"]);
  }

  lemma WhileSections(x: Node, level: nat, rank: map<Node, nat>)
    requires WellFormed(rank) && x in rank && x.tag == While
    ensures Sections(ChildLines(x, level, rank), level + 1) == ShownSections(x, rank)
  {
    var s1 := Section("Cond:", x.cond, level, rank);
    var s2 := Section("Body:", x.body, level, rank);
    assert ChildLines(x, level, rank) == s1 + s2;
    SectionShows("Cond:", x.cond, level, rank);
    SectionShows("Body:", x.body, level, rank);
    JoinSections(s1, s2, level + 1, ["Cond:"], ["Body:"]);
  }

  lemma VarDeclSections(x: Node, level: nat, rank: map<Node, nat>)
    requires WellFormed(rank) && x in rank && x.tag == VarDecl
    ensures Sections(ChildLines(x, level, rank), level + 1) == ShownSections(x, rank)
  {
    var d := level + 1;
    var init := if x.right != null then Section("Initializer:", x.right, level, rank) else [];
    assert ChildLines(x, level, rank) == PrintAst(x.left, d, rank) + init;
    TopSections(x.left, d, rank);
    SectionShows("Initializer:", x.right, level, rank);
    JoinSections(PrintAst(x.left, d, rank), init, d,
      Labels(Siblings(x.left, rank)), if x.right != null then ["Initializer:"] else []);
  }

  lemma IfSections(x: Node, level: nat, rank: map<Node, nat>)
    requires WellFormed(rank) && x in rank && x.tag == If
    ensures Sections(ChildLines(x, level, rank), level + 1) == ShownSections(x, rank)
  {
    var d := level + 1;
    var s1 := Section("Cond:", x.cond, level, rank);
    var s2 := Section("Then:", x.left, level, rank);
    var s3 := if x.right != null then Section("Else:", x.right, level, rank) else [];
    assert ChildLines(x, level, rank) == s1 + s2 + s3;
    SectionShows("Cond:", x.cond, level, rank);
    SectionShows("Then:", x.left, level, rank);
    SectionShows("Else:", x.right, level, rank);
    JoinSections(s1, s2, d, ["Cond:"], ["Then:"]);
    JoinSections(s1 + s2, s3, d, ["Cond:"] + ["Then:"], if x.right != null then ["Else:"] else []);
  }

  lemma ForSections(x: Node, level: nat, rank: map<Node, nat>)
    requires WellFormed(rank) && x in rank && x.tag == For
    ensures Sections(ChildLines(x, level, rank), level + 1) == ShownSections(x, rank)
  {
    var d := level + 1;
    var s1 := Section("Init:", x.init, level, rank);
    var s2 := Section("Cond:", x.cond, level, rank);
    var s3 := Section("Incr:", x.incr, level, rank);
    var s4 := Section("Body:", x.body, level, rank);
    assert ChildLines(x, level, rank) == s1 + s2 + s3 + s4;
    SectionShows("Init:", x.init, level, rank);
    SectionShows("Cond:", x.cond, level, rank);
    SectionShows("Incr:", x.incr, level, rank);
    SectionShows("Body:", x.body, level, rank);
    JoinSections(s1, s2, d, ["Init:"], ["Cond:"]);
    JoinSections(s1 + s2, s3, d, ["Init:"] + ["Cond:"], ["Incr:"]);
    JoinSections(s1 + s2 + s3, s4, d, ["Init:"] + ["Cond:"] + ["Incr:"], ["Body:"]);
  }

  lemma PairSections(x: Node, level: nat, rank: map<Node, nat>)
    requires WellFormed(rank) && x in rank && (x.tag == Assign || x.tag == BinOp)
    ensures Sections(ChildLines(x, level, rank), level + 1) == ShownSections(x, rank)
  {
    assert ChildLines(x, level, rank) == PrintAst(x.left, level + 1, rank) + PrintAst(x.right, level + 1, rank);
    ChainsSections(x.left, x.right, level + 1, rank);
  }

  /** Two chains printed one after the other show the labels of the first chain, then those of the second. */
  lemma ChainsSections(l: Node?, r: Node?, d: nat, rank: map<Node, nat>)
    requires WellFormed(rank) && (l != null ==> l in rank) && (r != null ==> r in rank)
    ensures Sections(PrintAst(l, d, rank) + PrintAst(r, d, rank), d) == Labels(Siblings(l, rank)) + Labels(Siblings(r, rank))
  {
    TopSections(l, d, rank);
    TopSections(r, d, rank);
    JoinSections(PrintAst(l, d, rank), PrintAst(r, d, rank), d, Labels(Siblings(l, rank)), Labels(Siblings(r, rank)));
  }


  /** No node's label reads `Initializer:`. */
  lemma {:induction false} LabelsLackInitializer(xs: seq<Node>)
    requires forall i :: 0 <= i < |xs| ==> (ShowsText(xs[i].tag) ==> xs[i].strVal.Some?)
    ensures "Initializer:" !in Labels(xs)
  {
    if xs != [] {
      var l := Label(xs[0]);
      assert l != "Initializer:" by {
        if |l| == |"Initializer:"| && l[0] == 'I' {
          assert l[2] != 'i';
        }
      }
      LabelsLackInitializer(xs[1..]);
    }
  }

  /** An `If` node shows an `Else:` section if and only if its else-branch is present. */
  lemma ElseShownIff(x: Node, level: nat, rank: map<Node, nat>)
    requires WellFormed(rank) && x in rank && x.tag == If
    ensures "Else:" in Sections(ChildLines(x, level, rank), level + 1) <==> x.right != null
  {
    ChildSections(x, level, rank);
  }

  /** A `VarDecl` node shows an `Initializer:` section if and only if `right` is present. */
  lemma InitializerShownIff(x: Node, level: nat, rank: map<Node, nat>)
    requires WellFormed(rank) && x in rank && x.tag == VarDecl
    ensures "Initializer:" in Sections(ChildLines(x, level, rank), level + 1) <==> x.right != null
  {
    ChildSections(x, level, rank);
    LabelsLackInitializer(Siblings(x.left, rank));
  }

  /**
   * The tags without a `case` (`StrLit`, `Param`, `FuncCall`, `Empty`) are
   * exactly those labelled `Unknown Node`, and their children are not printed.
   */
  lemma UnknownNodes(x: Node, level: int, rank: map<Node, nat>)
    requires WellFormed(rank) && x in rank
    ensures Label(x) == "Unknown Node" <==> x.tag in {StrLit, Param, FuncCall, Empty}
    ensures x.tag in {StrLit, Param, FuncCall, Empty} ==> ChildLines(x, level, rank) == []
  {
    var l := Label(x);
    if x.tag !in {StrLit, Param, FuncCall, Empty} && |l| == |"Unknown Node"| {
      assert l[0] != 'U' || l[2] != 'k';
    }
  }

  /** An `Int` node with no siblings, printed at level 0, is the single line `Int: <decimal>`. */
  lemma IntAlone(x: Node, rank: map<Node, nat>)
    requires WellFormed(rank) && x in rank && x.tag == ConstInt && x.next == null
    ensures PrintAst(x, 0, rank) == ["Int: " + Decimal(x.intVal as int)]
    ensures Stdout(PrintAst(x, 0, rank)) == "Int: " + Decimal(x.intVal as int) + "\n"
  {
    LoneNode(x, 0, rank);
    assert ChildLines(x, 0, rank) == [];
    assert Label(x) == "Int: " + Decimal(x.intVal as int);
    TopLevelLine(PrintAst(x, 0, rank), Label(x));
  }

  /** One unindented line, alone, is written followed by a newline. */
  lemma TopLevelLine(lines: seq<string>, s: string)
    requires lines == [Indent(0) + s] + []
    ensures lines == [s] && Stdout(lines) == s + "\n"
  {
    assert Indent(0) + s == s;
    assert Stdout([s]) == s + "\n" + Stdout([]);
  }


  /**
   * A node with no children and no siblings, whose tag prints no labelled
   * sections, prints its label line and nothing else.
   */
  lemma LeafLine(x: Node, level: int, rank: map<Node, nat>)
    requires WellFormed(rank) && x in rank && NoChildren(x) && x.next == null
    requires x.tag !in {FuncDef, If, While, For}
    ensures PrintAst(x, level, rank) == [Indent(level) + Label(x)]
  {
    assert ChildLines(x, level, rank) == [];
  }

  /** A node without siblings prints its label line followed by what its tag prints below it. */
  lemma LoneNode(x: Node, level: int, rank: map<Node, nat>)
    requires WellFormed(rank) && x in rank && x.next == null
    ensures PrintAst(x, level, rank) == [Indent(level) + Label(x)] + ChildLines(x, level, rank)
  {
    assert PrintAst(x, level, rank) == [Indent(level) + Label(x)] + ChildLines(x, level, rank) + [];
  }

  /** A section whose child is a leaf is its title line and the child's label line; an absent child gives the title alone. */
  lemma LeafSection(title: string, c: Node?, level: int, rank: map<Node, nat>)
    requires WellFormed(rank) && (c != null ==> c in rank)
    requires c != null ==> NoChildren(c) && c.next == null && c.tag !in {FuncDef, If, While, For}
    ensures c == null ==> Section(title, c, level, rank) == [Indent(level + 1) + title]
    ensures c != null ==> Section(title, c, level, rank) == [Indent(level + 1) + title, Indent(level + 2) + Label(c)]
  {
    if c != null {
      LeafLine(c, level + 2, rank);
    }
  }

  /** A one-digit value prints as that digit. */
  lemma DigitDecimal(n: int)
    requires 0 <= n < 10
    ensures Decimal(n) == [DigitChar(n)]
  {
  }

  /**
   * The first line of a present node is its label after exactly `level`
   * levels of indentation; an absent node prints nothing.
   */
  lemma FirstLine(node: Node?, level: nat, rank: map<Node, nat>)
    requires WellFormed(rank) && (node != null ==> node in rank)
    ensures node == null ==> PrintAst(node, level, rank) == []
    ensures node != null ==>
      && |PrintAst(node, level, rank)| > 0
      && AtDepth(PrintAst(node, level, rank)[0], level)
      && PrintAst(node, level, rank)[0][2 * level..] == Label(node)
  {
    if node != null {
      assert PrintAst(node, level, rank)[0] == Indent(level) + Label(node);
      TitleLine(Label(node), level);
    }
  }

}
