# HTML DSL compiler core, modelled in Dafny

The compiler reads a small markup language (`define`/`use` templates, headers,
paragraphs, images, nav bars, forms, tables, lists, rows and columns, cards,
buttons, footers) and emits an HTML document. This project models its core:

- `flex_actions.dfy` (`FlexActions`): every lexeme action of the scanner, as the
  token it returns and the semantic value it writes.
- `bison_actions.dfy` (`BisonActions`): the parser's node constructors and the
  three append-at-tail list builders. Nodes live in an explicit heap, so list
  links are stated at pointer level.
- `symbol_table.dfy` (`SymbolTable`): the head-pushed symbol list with
  create, lookup, insert, set-value and get-value.
- `error_manager.dfy` (`ErrorManager`): the error chain, its four recorders,
  the four message renderers and the one-shot `showErrors`. The chain is
  modelled with explicit `first`/`last`/`next` pointers, so the model shows
  what the appending code actually links.
- `ast.dfy` (`Ast`): the statement tree the generator walks.
- `generator.dfy` (`Generator`): the style and attribute serialisers (as
  functions and as the C two-pass buffer loops), the statement walk
  `_generateStatement` for every statement kind, including the `define`
  registry and `use` expansion, and `generate` with its prologue and epilogue.
  Output is a sequence of lines, each tagged with its indentation level.
- `generator_properties.dfy` (`GeneratorProperties`): what the walk
  guarantees. This covers nesting levels, container shape, table shape,
  registry growth, define/use behaviour and one end-to-end document.
- `wrappers.dfy` (`Wrappers`): `Option`.

## Model

| member | source | states |
|---|---|---|
| SymbolTable.Create | src/main/c/shared/symbol-table/symbolTable.c:6-10 | A new table defines no name and trivially has unique names. |
| SymbolTable.Find | src/main/c/shared/symbol-table/symbolTable.c:26-31 | The scan from the head returns the first position holding the name, or reports that no entry holds it. |
| SymbolTable.Lookup | src/main/c/shared/symbol-table/symbolTable.c:26-31 | Lookup succeeds exactly when the name is defined. The entry returned carries that name. With unique names it is the one entry with that name. |
| SymbolTable.Insert | src/main/c/shared/symbol-table/symbolTable.c:33-44 | An already defined name returns its existing entry and leaves the table unchanged. Otherwise a new entry with the given kind and initial value is pushed at the head. Afterwards lookup finds the returned entry, and unique names are preserved. |
| SymbolTable.SetValue | src/main/c/shared/symbol-table/symbolTable.c:46-52 | Succeeds exactly when the name is a defined variable; on failure nothing changes. Names and kinds are kept and every other name's entry is untouched. On success the entry holds the new value. Unique names are preserved. |
| SymbolTable.GetValue | src/main/c/shared/symbol-table/symbolTable.c:54-59 | Yields a value exactly when the name is a defined variable holding one. With unique names the result is `v` exactly when the table holds the variable entry `(name, v)`. |
| SymbolTable.FindPosition | src/main/c/shared/symbol-table/symbolTable.c:26-31 | A name first occurring at position `i` is found at `i`. |
| SymbolTable.SetThenGet | src/main/c/shared/symbol-table/symbolTable.c:46-59 | After a successful set, get returns the value that was set. |
| SymbolTable.SetValueFrame | src/main/c/shared/symbol-table/symbolTable.c:46-59 | Setting one name never changes what get returns for any other name. |
| SymbolTable.FirstDefinitionWins | src/main/c/shared/symbol-table/symbolTable.c:33-35 | Inserting a name a second time, with any kind or value, returns the first entry and an unchanged table. |
| ErrorManager.NewManager | src/main/c/shared/ErrorManager.c:15-17 | A zeroed manager: no errors, not shown, no first or last node, and an empty chain. |
| ErrorManager.NewErrorNode | src/main/c/shared/ErrorManager.c:19-37 | The count goes up by one and a fresh node holding the error is allocated. Into an empty chain it becomes both `first` and `last`. Otherwise the node at `last` is linked to it, and `first` and `last` stay as they were. No other node changes. |
| ErrorManager.AsWrittenChain | src/main/c/shared/ErrorManager.c:30-35 | Because `last` never moves, the chain reachable from `first` is always the first error followed by the latest one. |
| ErrorManager.ThirdErrorDropsSecond | src/main/c/shared/ErrorManager.c:19-37 | After three errors the count is 3 but the chain holds only the first and the third. |
| ErrorManager.NewErrorNodeLinked | src/main/c/shared/ErrorManager.c:19-37 | Corrected append: the count goes up by one and the new node becomes `last`. |
| ErrorManager.LinkedFromIsSuffix | src/main/c/shared/ErrorManager.c:72-83 | In a correctly linked chain, the walk from any node visits exactly the nodes allocated after it, in order. |
| ErrorManager.LinkedAppendShape | src/main/c/shared/ErrorManager.c:19-37 | The corrected append keeps the chain correctly linked. |
| ErrorManager.LinkedAppendKeepsAll | src/main/c/shared/ErrorManager.c:19-37 | With the corrected append, the chain is the old chain plus the new error. Its length equals the error count. |
| ErrorManager.NatToString | src/main/c/shared/ErrorManager.c:52 | The `%i` rendering of a number is a non-empty string of decimal digits that reads back as that number. It has no leading zero: its first digit is `0` only for the number 0. |
| ErrorManager.Render | src/main/c/shared/ErrorManager.c:51-69 | The four `printError*` lines for error number `i`: the bracketed number, the renderer's words and the quoted name, ending in a newline. `ErrorManager.RenderShape` states their shape. |
| ErrorManager.RenderShape | src/main/c/shared/ErrorManager.c:51-69 | Each renderer's line starts with `[Error <n>]: `, where `<n>` reads back as the error number. The offending name follows the renderer's lead-in words, and the line ends with a newline. |
| ErrorManager.ShowErrors | src/main/c/shared/ErrorManager.c:72-83 | Marks the manager as shown and changes nothing else. If it was already shown, nothing is printed. Otherwise there is one line per chain node, in chain order, numbered from 1, each drawn by that node's renderer. |
| ErrorManager.ShowErrorsOnce | src/main/c/shared/ErrorManager.c:73-76 | A second call prints nothing and leaves the manager as the first call left it. |
| ErrorManager.Record | src/main/c/shared/ErrorManager.c:96-119 | Shared body of the recorders as written: the status field is set to `FAILED` and the error is appended at the new node. |
| ErrorManager.UseUndefinedVariable | src/main/c/shared/ErrorManager.c:96-101 | Records an undefined-variable error drawn by the undefined-variable renderer. |
| ErrorManager.AddAlreadyDefinedVariable | src/main/c/shared/ErrorManager.c:102-107 | Records the error with type `UNDIFINED_VAR`, as the code does, drawn by the variable-exists renderer. |
| ErrorManager.UseUndefinedFunction | src/main/c/shared/ErrorManager.c:108-113 | Records an undefined-function error drawn by the undefined-function renderer. |
| ErrorManager.AddAlreadyDefinedFunction | src/main/c/shared/ErrorManager.c:114-119 | Records an already-defined-function error drawn by the function-exists renderer. |
| ErrorManager.RecordedFailureReadsAsSuccess | src/main/c/shared/CompilerState.h:12-24 | After any recorder runs, the boolean `succeed` still reads as true. |
| ErrorManager.RecordCorrected | src/main/c/shared/ErrorManager.c:96-119 | Corrected recorder: the state reads as failed afterwards. On a correctly linked chain the recorded error is the last chain entry and the chain length equals the count. |
| FlexActions.StripQuotes | src/main/c/frontend/lexical-analysis/FlexActions.c:240-249 | Removes exactly the first and the last character of the lexeme. |
| FlexActions.StripQuotesOfQuoted | src/main/c/frontend/lexical-analysis/FlexActions.c:240-249 | Stripping a quoted string gives back the text between the quotes. |
| FlexActions.QuotedOfStripQuotes | src/main/c/frontend/lexical-analysis/FlexActions.c:240-249 | Putting the two stripped characters back restores the lexeme. |
| FlexActions.Act | src/main/c/frontend/lexical-analysis/FlexActions.c:39-280 | Only the comment and ignored actions return no token. `Unknown` returns `UNKNOWN` and writes no value. Every other action writes its token into the semantic value. Header, style and table pass on the token they are given. All others return their own fixed token. The button, card, item, variable, ordered-item, bullet, identifier, unquoted-value and quoted-parameter-value actions keep the lexeme as payload; the other keyword actions (`define`, `use`, `form`, `img`, `row`, `column`, `end`, `footer`, `nav`) carry none. The quoted-value action keeps it without its quotes. |
| FlexActions.QuotedValueActions | src/main/c/frontend/lexical-analysis/FlexActions.c:240-257 | Both quoted actions return `QUOTED_VALUE`. The parameter variant keeps the quotes; the plain variant strips them. |
| FlexActions.TokenIgnoresLexeme | src/main/c/frontend/lexical-analysis/FlexActions.c:39-280 | Whether an action returns a token, and which token, does not depend on the lexeme. |
| BisonActions.CreateDefineNode | src/main/c/frontend/syntactic-analysis/BisonActions.c:35-42 | Allocates one fresh define node holding the name, parameters and statements. Earlier nodes are untouched. |
| BisonActions.CreateUseNode | src/main/c/frontend/syntactic-analysis/BisonActions.c:43-49 | Allocates one fresh use node holding the name and parameters. Earlier nodes are untouched. |
| BisonActions.CreateFormNode | src/main/c/frontend/syntactic-analysis/BisonActions.c:73-79 | Allocates one fresh form node holding its fields. Earlier nodes are untouched. |
| BisonActions.CreateFooterNode | src/main/c/frontend/syntactic-analysis/BisonActions.c:80-86 | Allocates one fresh footer node holding its fields. Earlier nodes are untouched. |
| BisonActions.CreateRowNode | src/main/c/frontend/syntactic-analysis/BisonActions.c:87-92 | Allocates one fresh row node holding its statements. Earlier nodes are untouched. |
| BisonActions.CreateColumnNode | src/main/c/frontend/syntactic-analysis/BisonActions.c:93-99 | Allocates one fresh column node holding its fields. Earlier nodes are untouched. |
| BisonActions.CreateNavNode | src/main/c/frontend/syntactic-analysis/BisonActions.c:100-106 | Allocates one fresh nav node holding its fields. Earlier nodes are untouched. |
| BisonActions.CreateOrderedListNode | src/main/c/frontend/syntactic-analysis/BisonActions.c:107-113 | Allocates one fresh ordered-list node holding its fields. Earlier nodes are untouched. |
| BisonActions.CreateUnorderedListNode | src/main/c/frontend/syntactic-analysis/BisonActions.c:137-143 | Allocates one fresh unordered-list node holding its fields. Earlier nodes are untouched. |
| BisonActions.CreateTextNode | src/main/c/frontend/syntactic-analysis/BisonActions.c:167-172 | Allocates one fresh text node holding the text. Earlier nodes are untouched. |
| BisonActions.CreateImageNode | src/main/c/frontend/syntactic-analysis/BisonActions.c:173-179 | Allocates one fresh image node holding the URL and alt text. Earlier nodes are untouched. |
| BisonActions.CreateList | src/main/c/frontend/syntactic-analysis/BisonActions.c:50-56 | Allocates a well-formed one-node list whose items are exactly the given item. The same builder serves `createOrderedItemList` and `createBulletItemList`. |
| BisonActions.Append | src/main/c/frontend/syntactic-analysis/BisonActions.c:57-72 | Appending to `NULL` yields a new one-item list. Otherwise the same head is returned and its items are the old items followed by the new one. The result is a well-formed list. Exactly one new node is allocated. Among the old nodes only the former tail's `next` changes. |
| BisonActions.AppendParameterToList | src/main/c/frontend/syntactic-analysis/BisonActions.c:57-72 | Append on a parameter list: same head, old items then the new parameter. Exactly one node is allocated, and among the old nodes only this list's tail is relinked. |
| BisonActions.AppendOrderedItem | src/main/c/frontend/syntactic-analysis/BisonActions.c:121-136 | Append on an ordered-item list: same head, old items then the new item. Exactly one node is allocated, and among the old nodes only this list's tail is relinked. |
| BisonActions.AppendBulletItem | src/main/c/frontend/syntactic-analysis/BisonActions.c:151-166 | Append on a bullet-item list: same head, old items then the new item. Exactly one node is allocated, and among the old nodes only this list's tail is relinked. |
| Generator.StyleToString | src/main/c/backend/code-generation/Generator.c:106-129 | The style string is exactly as long as the size the C code adds up for it (its buffer less the terminator). |
| Generator.StyleOfTwo | src/main/c/backend/code-generation/Generator.c:122-127 | Two parameters serialise as `k1:v1;k2:v2;`, in list order. |
| Generator.StyleToStringBuffer | src/main/c/backend/code-generation/Generator.c:106-129 | The two C loops produce exactly the style string. The computed buffer size is one more than its length, which leaves room for the terminator only. |
| Generator.AttributesToString | src/main/c/backend/code-generation/Generator.c:131-151 | An empty list gives the empty string. Otherwise the result is one shorter than the summed entry sizes. |
| Generator.AttributesAreJoined | src/main/c/backend/code-generation/Generator.c:143-149 | After the trailing space is cut, the attributes are the `key="value"` entries joined by single spaces. |
| Generator.RawIsJoinPlusSpace | src/main/c/backend/code-generation/Generator.c:143-148 | Before the cut, the buffer is the space-joined entries plus one trailing space. |
| Generator.AttributesToStringBuffer | src/main/c/backend/code-generation/Generator.c:131-151 | The C loops plus the final cut produce the attribute string. The buffer size is the summed entry sizes plus one (with `AttributesToString`, two more than the result for a non-empty list). |
| Generator.Resolve | src/main/c/backend/code-generation/Generator.c:161-201 | A text-bearing statement shows the variable's value when the symbol table has one for its text, and the raw text otherwise. With unique names, this is stated against the table's entries: a variable entry named by the text with value `v` gives `v`; with no such entry the text is shown as written. |
| Generator.FindDefine | src/main/c/backend/code-generation/Generator.c:365-385 | The registry scan returns the first template with the name, or reports that none has it. |
| Generator.Bind | src/main/c/backend/code-generation/Generator.c:368-374 | Positional binding keeps every key and the number of parameters. The first `min(#formals, #actuals)` values are taken from the use. The rest stay as they were. |
| Generator.NavLines | src/main/c/backend/code-generation/Generator.c:212-223 | One anchor line per nav item, in order, at the item level. |
| Generator.FormLines | src/main/c/backend/code-generation/Generator.c:224-239 | One labelled input line per form item, in order, at the item level. |
| Generator.OpenTag | src/main/c/backend/code-generation/Generator.c:212-341 | A container's open line: `<`, the element name, its style, class or value and its attributes, then `>`. `GeneratorProperties.CloseTagNamesElement` and `GeneratorProperties.ContainerShape` state that it pairs with the close line. |
| Generator.CloseTag | src/main/c/backend/code-generation/Generator.c:212-341 | A container's close line. `GeneratorProperties.CloseTagNamesElement` states that it closes the element the open line opens. |
| Generator.GenStatement | src/main/c/backend/code-generation/Generator.c:154-391 | The walk of one present statement. Containers emit open line, content, close line; headers, paragraph and image emit one line; `define` registers; `use` expands; the rest emit nothing. Its properties are stated by `GeneratorProperties.StatementLevels`, `ContainerShape`, `TextLeaves`, `StatementExtends` and the define/use lemmas. |
| Generator.GenInner | src/main/c/backend/code-generation/Generator.c:212-341 | What a container emits between its open and close lines. `GeneratorProperties.InnerLevels` states that it lies one level deeper. |
| Generator.GenSlot | src/main/c/backend/code-generation/Generator.c:154-157 | A statement slot: `NULL` emits nothing. `GeneratorProperties.NullSlotIgnored` states it. |
| Generator.GenList | src/main/c/backend/code-generation/Generator.c:399-405 | A statement list walked slot by slot at one level, with the registry threaded through. `GeneratorProperties.ListConcat`, `ListLevels` and `ListExtends` state its properties. |
| Generator.GenRows | src/main/c/backend/code-generation/Generator.c:272-289 | The rows of a table, each a `tr` around its cells. `GeneratorProperties.RowsShape` states the levels. |
| Generator.GenCells | src/main/c/backend/code-generation/Generator.c:277-286 | The cells of a row, each a `td` around its content. `GeneratorProperties.CellsShape` states the levels. |
| Generator.Generate | src/main/c/backend/code-generation/Generator.c:462-473 | The document is the prologue at level 0, then the program's statements walked at level 1, then the epilogue at level 0. |
| GeneratorProperties.TextLeaves | src/main/c/backend/code-generation/Generator.c:161-201 | Each header and the paragraph emit one line at the statement's level. It holds the symbol-table value of the text, or else the text, between the matching tags. The registry is untouched. |
| GeneratorProperties.UnsupportedEmitsNothing | src/main/c/backend/code-generation/Generator.c:388-390 | The plain-text kind falls into the default case: no output, no registry change. |
| GeneratorProperties.StatementLevels | src/main/c/backend/code-generation/Generator.c:154-391 | Nothing a statement emits, however deeply nested or expanded, lies above the statement's own level. |
| GeneratorProperties.InnerLevels | src/main/c/backend/code-generation/Generator.c:212-341 | A container's content lies at least one level below the container. |
| GeneratorProperties.UseLevels | src/main/c/backend/code-generation/Generator.c:376-381 | An expanded template body is emitted at the use's level or deeper. |
| GeneratorProperties.ListLevels | src/main/c/backend/code-generation/Generator.c:399-405 | Nothing a statement list emits lies above the list's level. |
| GeneratorProperties.RowsShape | src/main/c/backend/code-generation/Generator.c:272-289 | A table body holds `tr` lines one level in and `td` lines two levels in, and nothing else at those levels. Everything else is deeper. |
| GeneratorProperties.CellsShape | src/main/c/backend/code-generation/Generator.c:277-286 | A row holds `td` lines two levels in; the cell contents are deeper. |
| GeneratorProperties.CloseTagNamesElement | src/main/c/backend/code-generation/Generator.c:212-341 | Each container's literal close tag closes the element its open tag opens. |
| GeneratorProperties.ContainerShape | src/main/c/backend/code-generation/Generator.c:212-341 | Every container emits its open tag first and its matching close tag last, both at its own level, with all content strictly deeper. |
| GeneratorProperties.ListConcat | src/main/c/backend/code-generation/Generator.c:399-405 | Walking two lists one after the other equals walking their concatenation. The registry is threaded through both. |
| GeneratorProperties.NullSlotIgnored | src/main/c/backend/code-generation/Generator.c:155-157 | A `NULL` statement slot emits nothing and changes nothing. |
| GeneratorProperties.StatementExtends | src/main/c/backend/code-generation/Generator.c:342-387 | A statement walk only ever appends templates to the registry or rebinds parameter values. Names, bodies, styles and parameter keys of existing entries never change. |
| GeneratorProperties.ListExtends | src/main/c/backend/code-generation/Generator.c:399-405 | The same holds for a whole statement list. |
| GeneratorProperties.DefineRegisters | src/main/c/backend/code-generation/Generator.c:342-363 | `define` emits nothing and appends its name, parameters, style and body at the registry's tail. |
| GeneratorProperties.UseWithoutDefine | src/main/c/backend/code-generation/Generator.c:364-387 | A `use` of an unregistered name emits nothing and changes nothing. |
| GeneratorProperties.UseExpandsFirstMatch | src/main/c/backend/code-generation/Generator.c:364-387 | A `use` picks the first template with its name and rebinds that template's parameter values. It then emits the template's body at its own level against the rebound registry. |
| GeneratorProperties.UseBeforeDefine | src/main/c/backend/code-generation/Generator.c:342-387 | A `use` that comes before its `define` emits nothing. |
| GeneratorProperties.DefineThenUse | src/main/c/backend/code-generation/Generator.c:342-387 | `define` followed by `use` emits the template body, with the parameters rebound to the use's values. |
| GeneratorProperties.BoundValuesPersist | src/main/c/backend/code-generation/Generator.c:368-374 | For a template with an empty body: values bound by one `use` stay in the template, and a later `use` without values leaves them in place. |
| GeneratorProperties.UseWithoutValues | src/main/c/backend/code-generation/Generator.c:368-381 | For any template body, a `use` without values rebinds nothing. It walks the body against the values the template holds at that moment, so whatever an earlier `use` bound is what the body sees. |
| GeneratorProperties.DocumentLevels | src/main/c/backend/code-generation/Generator.c:399-405 | Everything between prologue and epilogue lies at level 1 or deeper. |
| GeneratorProperties.TitleAndGreeting | src/main/c/backend/code-generation/Generator.c:462-473 | A title header plus a paragraph naming the variable `name`, which holds `World`, produce exactly: prologue, `<h1>Title</h1>`, `<p>World</p>`, epilogue. |

## Left out

- Output: `_output` and `_indentation` (which writes the indentation level as spaces) and the output file. Lines carry their level instead. Logging is left out too.
- Memory management: every `free*`/`destroy*` function and the `malloc` failure paths (`outOfMemory`, and the `strdup("")` fallbacks in the serialisers).
- `AbstractSyntaxTree.c`, the grammar and `parse`. `EntryPoint.c` is not part of this model beyond `generate`.
- The scanner's start-condition stack for multiline comments. The comment actions are modelled only as returning no token.
- The unused `printError` table renderer and the choice of stdout or stderr.
- Header prototypes that differ from the `.c` definitions. The model follows the `.c` files.
- Language features that the code does not implement: local variable scope inside templates, flex layout of rows, a diagnostic for a `use` of an undefined template, and argument-count or list-index diagnostics. The last two have error kinds in `ErrorType`, but nothing records them.
- A `use` whose template or call has no parameter list dereferences `NULL` in the C code. The model treats a missing list as an empty one.
- Registry entries are value copies. In the C code the registry entry shares the AST's parameter list, so rebinding is also visible through the `define` node. The generator never reads parameter values back, so no output differs.
- `GenStatement`: `use` expansion depth is bounded by `fuel`. Every body expansion costs one unit. At zero fuel a matched `use` still rebinds but emits nothing. In the C code, a template that uses itself makes `_generateStatement` recurse without bound until the stack runs out.
- The registry starts empty at each `generate`. In the C code it is module state that lives as long as the generator module.
- The semantic-value layout, union or struct, is not visible in the sources. The token and the string payload are modelled as two fields.
- `FlexActions.Act`: the quoted-value action requires a lexeme of at least two characters. The scanner's pattern only matches quoted text, and a shorter lexeme would be out of bounds in the C code.
- `ErrorManager.NewErrorNode`: the error count is a C `int`; its overflow is not modelled.
- Strings are assumed free of NUL characters, so `strlen` and `strcat` act on whole strings.
- GeneratorProperties.BoundValuesPersist: proved for a template with an empty body only. A non-empty body may itself `use` the template again and rebind its values, so persistence across the walk of an arbitrary body is not a property of the C code. `GeneratorProperties.UseWithoutValues` states the part that holds for every body: a `use` without values does not rebind.

## Findings

| source | as written | input that shows it | evidently intended | confidence | as-written member | corrected member |
|---|---|---|---|---|---|---|
| src/main/c/shared/ErrorManager.c:30-35 | appending to a non-empty chain links the new node after `last` but never moves `last` | three recorded errors `a`, `b`, `c`: `showErrors` prints `a` and `c`, and `b` is lost although `errorCount` is 3 | `last` advances to each new node, so every error is printed | not executed | ErrorManager.ThirdErrorDropsSecond | ErrorManager.LinkedAppendKeepsAll |
| src/main/c/shared/ErrorManager.c:96-119 | each recorder stores `FAILED` (1) into the boolean `succeed`, which reads as true | any recorded error: `succeed` is 1 afterwards, so the compilation still reads as successful | `succeed` becomes false when an error is recorded | not executed | ErrorManager.RecordedFailureReadsAsSuccess | ErrorManager.RecordCorrected |

The four recorders are modelled as written, on top of `ErrorManager.Record` and `ErrorManager.NewErrorNode`. `ErrorManager.RecordCorrected` is the corrected shared body: it clears the flag and uses `ErrorManager.NewErrorNodeLinked`.
