# AST library of a small C-like compiler, modelled in Dafny

This models the abstract-syntax-tree library of a small compiler for a C-like language (`ast.h`, `ast.c`). It covers three parts:

- **Data model.** The closed `NodeType` enumeration, and the one `ASTNode` record that every node shares. A node has a tag, an `int` payload, an optional string, six child links (`left`, `right`, `cond`, `body`, `init`, `incr`) and a separate `next` sibling link.
- **Factory.** `create_node` and the eleven `create_*` constructors.
- **Sibling-list builder and printer.** `append_node` links a node after the tail of a `next` chain. `print_indent` and `print_ast` render a tree as indented text.

Modules, file by file:

- `ast_types.dfy` (`AstTypes`)
  - `NodeType`, its C values (`Ordinal`) and their inverse.
  - `int32` for the C `int` payload.
  - `class Node`, whose constructor is `create_node`.
- `ast_factory.dfy` (`AstFactory`)
  - One method per `create_*` function.
  - `CString`, the text `strdup` copies. A caller's string is an `array<char>` holding a NUL.
  - `IsChain`, a ghost predicate: the caller-supplied ghost sequence `chain` lists, in order, the nodes reached from `head` through `next` until null.
  - `AppendNode`, the in-place append. Its loop walks the chain, and its `modifies` clause names only the old tail's `next` field.
- `ast_printer.dfy` (`AstPrinter`)
  - `print_indent` as `Indent`, and as the method `PrintIndent` with its counted loop.
  - `print_ast` as the function `PrintAst`. It reads the heap and returns, instead of writing them, the texts of its `printf` calls, one element per call (each format ends in a newline). `Stdout` gives the exact text written: every element followed by one newline.
  - Recursion is over a ghost `rank` map. It ranks every node of an acyclic, finite graph strictly above the nodes it links to (`WellFormed`).
  - Lemmas state:
    - the indentation of every line;
    - the first line of a node;
    - which section labels each tag shows one level down (`ShownSections` is the reference table, tag by tag);
    - when `Else:` and `Initializer:` appear;
    - that sibling chains print as one label per node, in chain order.
- `ast_scenarios.dfy` (`AstScenarios`): complete examples.
  - Trees are built with the factory and `append_node`, and the exact lines `print_ast(root, 0)` prints are proved.
  - The examples are a binary `+`, a three-element sibling chain, an `if` without an else-branch, and `main` with no parameters.
  - Another example shows that the node keeps its own copy of a name after the caller's buffer is overwritten.

Two behaviours of `ast.c` that a reader might not expect, and which the model follows as written:

- `append_node` does not clear the appended node's `next`. The appended node brings its whole chain with it, and `AppendNode` states that the new chain is the old one followed by that chain.
- `print_ast` prints the `Params:`, `Init:`, `Cond:` and `Incr:` labels even when those slots are null. Only `Else:` and `Initializer:` depend on the slot being set.

## Model

| member | source | states |
|---|---|---|
| AstTypes.Ordinal | ast.h:4-23 | every enumerator has a C value in 0..17 (18 tags, declaration order) |
| AstTypes.FromOrdinal | ast.h:4-23 | each value 0..17 names the enumerator whose C value it is |
| AstTypes.OrdinalBijective | ast.h:4-23 | distinct enumerators have distinct values, `FromOrdinal` inverts `Ordinal`, and every value in 0..17 is taken |
| AstTypes.Node.constructor | ast.c:6-18 | `create_node(t)`: the tag is `t`; all seven links and the string are absent |
| AstFactory.CString | ast.c:34 | the copied string is the buffer's prefix before its first NUL and contains no NUL |
| AstFactory.CreateIntNode | ast.c:20-24 | fresh `ConstInt` node; `int_val` is the argument; no string, no children, no `next` |
| AstFactory.CreateCharNode | ast.c:26-30 | fresh `ConstChar` node; `int_val` is the argument; every link absent |
| AstFactory.CreateStrNode | ast.c:32-36 | fresh `StrLit` node whose string is a copy of the caller's C string; every link absent |
| AstFactory.CreateVarNode | ast.c:38-42 | fresh `Var` node whose string is a copy of the caller's C string; every link absent |
| AstFactory.CreateTypeNode | ast.c:44-48 | fresh `Type` node; `int_val` is the token; every link absent |
| AstFactory.CreateBinaryNode | ast.c:50-56 | fresh `BinOp`: operator in `int_val`, operands in `left` and `right`; all other links absent |
| AstFactory.CreateUnaryNode | ast.c:58-63 | fresh `UnOp`: operator in `int_val`, operand in `left`; all other links absent |
| AstFactory.CreateIfNode | ast.c:65-71 | fresh `If`: `cond`, then-branch in `left`, else-branch (possibly absent) in `right`; all other links absent |
| AstFactory.CreateWhileNode | ast.c:73-78 | fresh `While`: `cond` and `body` hold the arguments; all other links absent |
| AstFactory.CreateForNode | ast.c:80-87 | fresh `For`: `init`, `cond`, `incr`, `body` hold the arguments; `left`, `right`, `next` absent |
| AstFactory.CreateFuncDef | ast.c:89-96 | fresh `FuncDef`: return type in `left`, copied name, parameter chain in `right`, `body`; the rest absent |
| AstFactory.IsChain | ast.c:100-103 | no `ensures` (a predicate): the ghost `chain` is the sequence of nodes the `while (temp->next)` walk visits from `head`, ending in a null `next`; `ChainDistinct`, `AppendNode` and `SiblingsOfChain` are stated over it |
| AstFactory.ChainDistinct | ast.c:100-104 | a null-terminated `next` chain visits no node twice, so the walk ends at the unique tail |
| AstFactory.AppendNode | ast.c:98-105 | a null head changes nothing; otherwise only the old tail's `next` changes, it becomes `newNode`, and the chain from `head` is the old chain followed by `newNode`'s own chain |
| AstPrinter.Stdout | ast.c:117-200 | no `ensures`: the body writes each element followed by one newline, as every `printf` format does; `StdoutConcat`, `IntAlone` and `TopLevelLine` state its behaviour |
| AstPrinter.StdoutConcat | ast.c:112-205 | output printed by consecutive calls is the concatenation of their texts, in call order |
| AstPrinter.Indent | ast.c:108-110 | `2 * level` spaces (none for a level of 0 or less), and nothing but spaces |
| AstPrinter.PrintIndent | ast.c:108-110 | the counted loop produces exactly `Indent(level)` |
| AstPrinter.SectionsConcat | ast.c:112-205 | the depth-`d` lines of concatenated output are those of each part, in order |
| AstPrinter.SectionsOfDeeper | ast.c:112-205 | output indented deeper than `d` contributes no line at depth `d` |
| AstPrinter.CharOf | ast.c:178 | `%c` prints the byte the `int` converts to as `unsigned char` (its value modulo 256) |
| AstPrinter.DigitChar | ast.c:187 | a digit's character is `'0'` plus its value |
| AstPrinter.NatDigits | ast.c:187 | the `%d` digits of a magnitude: only digits, no leading zero |
| AstPrinter.Decimal | ast.c:187 | `%d` text is non-empty and starts with `-` exactly when the value is negative |
| AstPrinter.NatDigitsValue | ast.c:187 | reading the printed digits back gives the number |
| AstPrinter.NatDigitsInjective | ast.c:187 | distinct magnitudes print distinct digit strings |
| AstPrinter.DecimalInjective | ast.c:196 | distinct payloads print distinct `%d` texts |
| AstPrinter.Extend | ast.c:50-96 | a node built over nodes already in the acyclic graph, whose printed string is present, can join the graph ranked above them |
| AstPrinter.Label | ast.c:117-200 | each tag's first line is non-empty and does not start with a space |
| AstPrinter.PrintAst | ast.c:112-205 | no `ensures`: the model of `print_ast` (absent node prints nothing; label line at `level`, the arm's output, then the `next` siblings at `level`); `FirstLine`, `TopSections`, `PrintAstIndented` and `LoneNode` state its behaviour |
| AstPrinter.ChildLines | ast.c:117-200 | no `ensures`: the `switch` arms after the label line; `ChildSections` (against `ShownSections`), `ChildLinesIndented`, `ElseShownIff`, `InitializerShownIff` and `UnknownNodes` state its behaviour |
| AstPrinter.Section | ast.c:120-125 | no `ensures`: one labelled section, `print_indent(level + 1)`, the label, `print_ast(child, level + 2)`; `SectionShows`, `SectionIndented` and `LeafSection` state its behaviour |
| AstPrinter.LabelOneLine | ast.c:117-200 | a label holds no newline, so it is one physical line on stdout, when no `%s` string holds a newline and no `%c` payload is 10 modulo 256 |
| AstPrinter.DecimalOneLine | ast.c:187 | `%d` text holds no newline |
| AstPrinter.Siblings | ast.c:203-205 | the nodes `print_ast` reaches through `next` are all in the graph |
| AstPrinter.SiblingsOfChain | ast.c:203-205 | on an acyclic chain, the siblings `print_ast` follows are exactly that chain, in order |
| AstPrinter.IndentedJoin | ast.c:112-205 | consecutive output runs each indented by `d` levels give output indented by `d` levels |
| AstPrinter.PrintAstIndented | ast.c:112-205 | every line `print_ast(node, level)` prints is indented by at least `level` levels |
| AstPrinter.ChildLinesIndented | ast.c:117-200 | everything a `switch` arm prints after the label is at least one level deeper |
| AstPrinter.FuncDefIndented | ast.c:118-126 | the `FuncDef` arm's output is at least one level below the label |
| AstPrinter.VarDeclIndented | ast.c:127-134 | the `VarDecl` arm's output is at least one level below the label |
| AstPrinter.SingleIndented | ast.c:135-185 | the `Block`, `Return` and `UnOp` arms' output is at least one level below the label |
| AstPrinter.IfIndented | ast.c:139-149 | the `If` arm's output is at least one level below the label |
| AstPrinter.WhileIndented | ast.c:150-156 | the `While` arm's output is at least one level below the label |
| AstPrinter.ForIndented | ast.c:157-167 | the `For` arm's output is at least one level below the label |
| AstPrinter.PairIndented | ast.c:172-181 | the `Assign` and `BinOp` arms' output is at least one level below the label |
| AstPrinter.SectionIndented | ast.c:120-121 | a labelled section (`print_indent(level+1)`, label, `print_ast(child, level+2)`) lies one level below the node |
| AstPrinter.TopSections | ast.c:112-205 | the lines of `print_ast(node, level)` at depth exactly `level` are the labels of `node` and its `next` siblings, one each, in chain order |
| AstPrinter.TitleLine | ast.c:120 | a label printed after `print_indent(d)` is a line at depth `d` whose text is the label |
| AstPrinter.SectionShows | ast.c:120-121 | one labelled section shows exactly its label one level below the node, whatever the child prints |
| AstPrinter.ChildSections | ast.c:117-200 | the labels a node's arm shows one level down are exactly the reference table `ShownSections` for its tag |
| AstPrinter.FuncDefSections | ast.c:118-126 | `FuncDef` always shows `Return Type:`, `Params:`, `Body:`, even for absent slots |
| AstPrinter.VarDeclSections | ast.c:127-134 | `VarDecl` shows its type chain's labels, then `Initializer:` only when `right` is set |
| AstPrinter.IfSections | ast.c:139-149 | `If` shows `Cond:`, `Then:`, and `Else:` only when the else-branch is set |
| AstPrinter.WhileSections | ast.c:150-156 | `While` always shows `Cond:` and `Body:` |
| AstPrinter.ForSections | ast.c:157-167 | `For` always shows `Init:`, `Cond:`, `Incr:`, `Body:`, even for absent slots |
| AstPrinter.PairSections | ast.c:172-181 | `Assign` and `BinOp` show the labels of the left chain, then of the right chain |
| AstPrinter.ChainsSections | ast.c:174-175 | two chains printed one after the other at the same level show their labels in that order |
| AstPrinter.LabelsCons | ast.c:203-205 | the labels of a node followed by its siblings are its own label, then theirs |
| AstPrinter.LabelsLackInitializer | ast.c:131 | no first-line label is `Initializer:`, so that line can only come from the `VarDecl` arm |
| AstPrinter.ElseShownIff | ast.c:145-148 | `Else:` appears under an `If` if and only if its else-branch is present |
| AstPrinter.InitializerShownIff | ast.c:130-133 | `Initializer:` appears under a `VarDecl` if and only if `right` is present |
| AstPrinter.UnknownNodes | ast.c:198-199 | exactly `StrLit`, `Param`, `FuncCall`, `Empty` print `Unknown Node`, with no children printed |
| AstPrinter.IntAlone | ast.c:186-188 | an `Int` node with no siblings at level 0 prints exactly `Int: <decimal>` and one newline |
| AstPrinter.TopLevelLine | ast.c:115 | at level 0 a line has no indentation, and on stdout it is followed by one newline |
| AstPrinter.LeafLine | ast.c:186-197 | a childless, siblingless leaf prints just its label line |
| AstPrinter.LoneNode | ast.c:112-205 | a node without `next` prints its label line then its arm's output, and nothing after |
| AstPrinter.LeafSection | ast.c:120-121 | a section over an absent child is only its label; over a leaf, the label and the leaf's line one level deeper |
| AstPrinter.DigitDecimal | ast.c:187 | a one-digit value prints as that single digit |
| AstPrinter.FirstLine | ast.c:113-115 | an absent node prints nothing; a present node's first line is its label after exactly `level` levels |
| AstScenarios.SmallDecimals | ast.c:187 | `%d` of 1, 2, 3 and 42 |
| AstScenarios.BufferStrings | ast.c:34 | the C strings in the example buffers |
| AstScenarios.ShallowIndents | ast.c:108-110 | the indentation of levels 0, 1 and 2 |
| AstScenarios.BinOpPrinted | ast.c:177-181 | `1 + 2` prints `BinOp: +`, then `Int: 1` and `Int: 2` one level deeper |
| AstScenarios.BinOpText | ast.c:177-188 | the three lines of `1 + 2` as text |
| AstScenarios.BuildBinaryOp | ast.c:50-56 | `create_binary_node('+', 1, 2)` builds a tree that prints those three lines |
| AstScenarios.PrintIntLiteral | ast.c:186-188 | `create_int_node(42)` alone prints exactly `Int: 42` and a newline |
| AstScenarios.ChainPrinted | ast.c:203-205 | literals 1, 2, 3 linked by `next` print as three lines at one level, in order |
| AstScenarios.ChainText | ast.c:203-205 | the three lines of the chain as text |
| AstScenarios.LinkThree | ast.c:98-105 | two `append_node` calls from node 1 link `1 -> 2 -> 3` |
| AstScenarios.BuildSiblingChain | ast.c:98-105 | the chain built by two appends prints its literals in insertion order |
| AstScenarios.LabelsConcat | ast.c:203-205 | the labels of two chains, one after the other, are those of each chain in order |
| AstScenarios.PrintedChain | ast.c:203-205 | the top-level lines of `print_ast(head, level)` are the labels of the chain from `head`, one per node, in order |
| AstScenarios.IfPrinted | ast.c:139-149 | `if (x) 1` with no else prints `If`, `Cond:`, `Var: x`, `Then:`, `Int: 1` and no `Else:` |
| AstScenarios.IfText | ast.c:139-149 | the five lines of that `if` as text |
| AstScenarios.CreateVarX | ast.c:38-42 | `create_var_node` of the C string `x` gives a `Var` node holding `x` |
| AstScenarios.BuildIfWithoutElse | ast.c:65-71 | `create_if_node(cond, then, NULL)` builds a tree that prints those five lines |
| AstScenarios.FuncDefPrinted | ast.c:118-126 | `main` without parameters prints `Params:` with nothing under it, between `Return Type:` and `Body:` |
| AstScenarios.FuncDefText | ast.c:118-126 | the six lines of that definition as text |
| AstScenarios.FuncDefLineTexts | ast.c:118-126 | each of those six lines, indentation included |
| AstScenarios.CreateMain | ast.c:89-96 | `create_func_def` with the name `main` in a caller's buffer and no parameters |
| AstScenarios.BuildFuncDefWithoutParams | ast.c:118-126 | `create_func_def(type 3, "main", NULL, block)` builds a tree that prints those six lines |
| AstScenarios.CopyIsIndependent | ast.c:38-42 | overwriting the caller's buffer after `create_var_node` leaves the node's string unchanged |

## Left out

- Allocation failure: `malloc` is unchecked in `create_node`, so a `NULL` result would be dereferenced. Allocation is modelled as always succeeding (`new`).
- Output as I/O: `printf` is not modelled as a side effect. `PrintAst` returns one element per `printf` call, and `Stdout` gives the exact text, each element followed by one newline.
- AstPrinter.TopSections: this lemma and the other depth and section lemmas (`ChildSections`, `ElseShownIff`, `InitializerShownIff`, `PrintAstIndented`, `PrintedChain`) speak of the elements of `PrintAst`, not of the physical lines of standard output. An element is one physical line only when its label holds no newline (`LabelOneLine`). It can hold one in two ways: a `%s` string (`FuncDef`, `VarDecl`, `Var`) that contains a newline, or a `%c` payload (`BinOp`, `UnOp`, `ConstChar`) that is 10 modulo 256. `WellFormed` does not exclude these; only `Stdout`'s text is exact for them.
- AstPrinter.CharOf: `%c` is modelled as the byte value, taken as a Dafny `char` in 0..255. No character encoding of the output stream is modelled.
- AstPrinter.WellFormed: a null `str_val` printed with `%s` is undefined behaviour in C. So the printer's precondition requires a string on every `FuncDef`, `VarDecl` and `Var` node, and no output is stated for the null case.
- AstTypes.Node.constructor: `create_node` leaves `int_val` unset, which is undefined in C. The model's field has an arbitrary initial value, and no contract depends on it.
- Cyclic chains: `append_node` and `print_ast` do not terminate on them. Instead, `AppendNode` requires a finite null-terminated chain (`IsChain`), and the printer requires an acyclic finite graph (`WellFormed`). Divergence is not modelled.
- AstPrinter.WellFormed: it requires all seven links of every node in the graph to lead, acyclically, to nodes of the graph, including links the printer never follows for that tag (an `Int` node's `cond`, say). C would print such a node regardless of those links. No `create_*` function sets a link outside its own tag's slots, so every tree the factory builds meets this.
- AstPrinter.PrintAst: `level` may be any `int`, as it is in C. The indentation and section lemmas are stated for levels of 0 and above.
- Memory reclamation, ownership and shared subtrees: there is no free routine, and the constructors do not check for shared children. Aliasing is allowed by the model but nothing is proved about it.
- The node's tag is modelled as a `const`: no core operation changes a tag after `create_node`.
- AstFactory.CString: `strdup` is modelled as a copy of the value. The address of the fresh heap block is not modelled, and neither is a caller's string that lacks a terminating NUL (undefined in C, excluded by the precondition).
