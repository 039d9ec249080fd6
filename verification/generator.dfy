/**
 * The code generator: a depth-first walk over the statements that produces
 * the HTML document as a sequence of lines, each tagged with its indentation
 * level (the writer that turns a level into spaces and the output file are
 * left out).
 *
 * The registry of `define` templates, a module-level list in C, is threaded
 * through the walk as explicit state. A `use` expands a registered body, which
 * may itself `use` templates without bound, so the walk carries `fuel`: every
 * expansion of a body costs one unit.
 */
module Generator {
  import opened Wrappers
  import opened Ast
  import SymbolTable

  /** One output line: indentation level and text. */
  type Line = (nat, string)

  /** One `DefineStatementList` node: a registered template. */
  datatype DefineEntry = DefineEntry(name: string, parameters: ParameterList, style: ParameterList, body: StatementList)

  /** The define registry, head first. */
  type Registry = seq<DefineEntry>

  /** What walking a statement produces: its lines and the registry afterwards. */
  datatype Gen = Gen(lines: seq<Line>, registry: Registry)

  // ---------------------------------------------------------------- serialisers

  function StyleEntry(p: Parameter): string {
    p.key + ":" + p.value + ";"
  }

  /** `styleToString`: `key:value;` for every parameter, in list order. */
  function StyleToString(ps: ParameterList): (r: string)
    ensures |r| == StyleLength(ps)
  {
    if |ps| == 0 then "" else StyleEntry(ps[0]) + StyleToString(ps[1..])
  }

  /** The size the C code adds up for a style, less its terminator: Σ(|key| + |value| + 2). */
  function StyleLength(ps: ParameterList): nat {
    if |ps| == 0 then 0 else |ps[0].key| + 1 + |ps[0].value| + 1 + StyleLength(ps[1..])
  }

  /** Styles of consecutive lists concatenate. */
  lemma {:induction false} StyleConcat(a: ParameterList, b: ParameterList)
    ensures StyleToString(a + b) == StyleToString(a) + StyleToString(b)
  {
    if |a| > 0 {
      assert (a + b)[0] == a[0];
      assert (a + b)[1..] == a[1..] + b;
      StyleConcat(a[1..], b);
    } else {
      assert a + b == b;
    }
  }

  /** The two-parameter example: entries in insertion order, each ending in `;`. */
  lemma StyleOfTwo(k1: string, v1: string, k2: string, v2: string)
    ensures StyleToString([Parameter(k1, v1), Parameter(k2, v2)]) == k1 + ":" + v1 + ";" + k2 + ":" + v2 + ";"
  {
  }

  /** One more entry of the loop: the style text grows by that entry. */
  lemma StyleStep(ps: ParameterList, i: nat)
    requires i < |ps|
    ensures StyleToString(ps[..i + 1]) == StyleToString(ps[..i]) + ps[i].key + ":" + ps[i].value + ";"
  {
    StyleConcat(ps[..i], [ps[i]]);
    assert ps[..i + 1] == ps[..i] + [ps[i]];
    assert [ps[i]][1..] == [];
  }

  /**
   * `styleToString` as the C code computes it: first the buffer size, then
   * the entries appended one by one. The result is the style string and the
   * buffer is exactly one byte (the terminator) longer than it.
   */
  method StyleToStringBuffer(ps: ParameterList) returns (buf: string, total: nat)
    ensures buf == StyleToString(ps)
    ensures total == |buf| + 1 && total == StyleLength(ps) + 1
  {
    if |ps| == 0 {
      return "", 1;
    }
    total := 1;
    var i := 0;
    while i < |ps|
      invariant 0 <= i <= |ps|
      invariant total == 1 + |StyleToString(ps[..i])|
    {
      StyleStep(ps, i);
      total := total + |ps[i].key| + 1 + |ps[i].value| + 1;
      i := i + 1;
    }
    buf := "";
    i := 0;
    while i < |ps|
      invariant 0 <= i <= |ps|
      invariant buf == StyleToString(ps[..i])
    {
      StyleStep(ps, i);
      buf := buf + ps[i].key + ":" + ps[i].value + ";";
      i := i + 1;
    }
    assert ps[..|ps|] == ps;
  }

  function AttributeEntry(p: Parameter): string {
    p.key + "=\"" + p.value + "\""
  }

  /** What the C loop leaves in the buffer: every `key="value" ` entry, each followed by a space. */
  function RawAttributes(ps: ParameterList): (r: string)
    ensures |r| == AttributeLength(ps)
  {
    if |ps| == 0 then "" else AttributeEntry(ps[0]) + " " + RawAttributes(ps[1..])
  }

  /** The size the C code adds up for attributes, less the terminator: Σ(|key| + |value| + 4). */
  function AttributeLength(ps: ParameterList): nat {
    if |ps| == 0 then 0 else |ps[0].key| + 2 + |ps[0].value| + 2 + AttributeLength(ps[1..])
  }

  /** `attributesToString`: the raw entries with the final space cut off. */
  function AttributesToString(ps: ParameterList): (r: string)
    ensures |ps| == 0 ==> r == ""
    ensures |ps| > 0 ==> |r| == AttributeLength(ps) - 1
  {
    var raw := RawAttributes(ps);
    if |raw| > 0 then raw[..|raw| - 1] else raw
  }

  /** The attribute entries joined by single spaces: an independent statement of the format. */
  function JoinAttributes(ps: ParameterList): string {
    if |ps| == 0 then ""
    else if |ps| == 1 then AttributeEntry(ps[0])
    else AttributeEntry(ps[0]) + " " + JoinAttributes(ps[1..])
  }

  lemma {:induction false} RawIsJoinPlusSpace(ps: ParameterList)
    requires |ps| > 0
    ensures RawAttributes(ps) == JoinAttributes(ps) + " "
  {
    if |ps| > 1 {
      RawIsJoinPlusSpace(ps[1..]);
    }
  }

  /** Cutting the trailing space leaves exactly the space-joined entries. */
  lemma AttributesAreJoined(ps: ParameterList)
    ensures AttributesToString(ps) == JoinAttributes(ps)
  {
  }

  lemma {:induction false} RawConcat(a: ParameterList, b: ParameterList)
    ensures RawAttributes(a + b) == RawAttributes(a) + RawAttributes(b)
  {
    if |a| > 0 {
      assert (a + b)[0] == a[0];
      assert (a + b)[1..] == a[1..] + b;
      RawConcat(a[1..], b);
    } else {
      assert a + b == b;
    }
  }

  /** One more entry of the loop: the raw text grows by that entry and its space. */
  lemma RawStep(ps: ParameterList, i: nat)
    requires i < |ps|
    ensures RawAttributes(ps[..i + 1]) == RawAttributes(ps[..i]) + ps[i].key + "=\"" + ps[i].value + "\" "
  {
    RawConcat(ps[..i], [ps[i]]);
    assert ps[..i + 1] == ps[..i] + [ps[i]];
    assert [ps[i]][1..] == [];
  }

  /**
   * `attributesToString` as the C code computes it. The appended entries fill
   * the buffer exactly up to its terminator; cutting the last space then
   * leaves one more byte free.
   */
  method AttributesToStringBuffer(ps: ParameterList) returns (buf: string, total: nat)
    ensures buf == AttributesToString(ps)
    ensures total == AttributeLength(ps) + 1
  {
    if |ps| == 0 {
      return "", 1;
    }
    total := 1;
    var i := 0;
    while i < |ps|
      invariant 0 <= i <= |ps|
      invariant total == 1 + |RawAttributes(ps[..i])|
    {
      RawStep(ps, i);
      total := total + |ps[i].key| + 2 + |ps[i].value| + 2;
      i := i + 1;
    }
    buf := "";
    i := 0;
    while i < |ps|
      invariant 0 <= i <= |ps|
      invariant buf == RawAttributes(ps[..i])
    {
      RawStep(ps, i);
      buf := buf + ps[i].key + "=\"" + ps[i].value + "\" ";
      i := i + 1;
    }
    assert ps[..|ps|] == ps;
    if |buf| > 0 {
      buf := buf[..|buf| - 1];
    }
  }

  // ---------------------------------------------------------------- the walk

  /** Text of a text-bearing statement: its symbol-table value if it has one, else the raw text. */
  function Resolve(st: SymbolTable.Table, raw: string): (r: string)
    ensures SymbolTable.GetValue(st, raw).Some? ==> r == SymbolTable.GetValue(st, raw).value
    ensures SymbolTable.GetValue(st, raw).None? ==> r == raw
    ensures SymbolTable.UniqueNames(st) ==>
              forall v :: SymbolTable.Symbol(raw, SymbolTable.SymVar, Some(v)) in st.entries ==> r == v
    ensures SymbolTable.UniqueNames(st) ==>
              (forall v :: SymbolTable.Symbol(raw, SymbolTable.SymVar, Some(v)) !in st.entries) ==> r == raw
  {
    match SymbolTable.GetValue(st, raw)
    case Some(v) => v
    case None => raw
  }

  /** Position of the first registered define called `name`, scanning from the head. */
  function FindDefine(reg: Registry, name: string): (r: Option<nat>)
    ensures r.Some? ==> r.value < |reg| && reg[r.value].name == name
    ensures r.Some? ==> forall j :: 0 <= j < r.value ==> reg[j].name != name
    ensures r.None? ==> forall j :: 0 <= j < |reg| ==> reg[j].name != name
  {
    if |reg| == 0 then None
    else if reg[0].name == name then Some(0)
    else
      match FindDefine(reg[1..], name)
      case None => None
      case Some(i) => Some(i + 1)
  }

  /**
   * Positional binding of a `use`: the define's parameter values are replaced
   * pairwise by the use's values, stopping at the shorter list; keys stay.
   */
  function Bind(formals: ParameterList, actuals: ParameterList): (r: ParameterList)
    ensures |r| == |formals|
    ensures forall i :: 0 <= i < |r| ==> r[i].key == formals[i].key
    ensures forall i :: 0 <= i < |r| && i < |actuals| ==> r[i].value == actuals[i].value
    ensures forall i :: |actuals| <= i < |r| ==> r[i] == formals[i]
  {
    if |formals| == 0 || |actuals| == 0 then formals
    else [formals[0].(value := actuals[0].value)] + Bind(formals[1..], actuals[1..])
  }

  /** The kinds that wrap their content between an open line and a close line. */
  predicate IsContainer(s: Statement) {
    s.Nav? || s.Form? || s.Footer? || s.Card? || s.Button? || s.Table?
    || s.UnorderedList? || s.BulletItem? || s.OrderedList? || s.OrderedItem?
    || s.Row? || s.Column?
  }

  /** The element a container emits. */
  function TagName(s: Statement): string
    requires IsContainer(s)
  {
    match s
    case Nav(_, _, _) => "nav"
    case Form(_, _, _) => "form"
    case Footer(_, _) => "footer"
    case Button(_, _, _) => "button"
    case Table(_, _) => "table"
    case UnorderedList(_, _) => "ul"
    case OrderedList(_, _) => "ol"
    case BulletItem(_, _) => "li"
    case OrderedItem(_, _) => "li"
    case _ => "div"
  }

  function Quoted(s: string): string {
    "\"" + s + "\""
  }

  /** What follows the element name in a container's open line. */
  function OpenAttributes(s: Statement): string
    requires IsContainer(s)
  {
    match s
    case Nav(style, attrs, _) => " style=" + Quoted(StyleToString(style)) + " " + AttributesToString(attrs)
    case Form(style, attrs, _) => " style=" + Quoted(StyleToString(style)) + " " + AttributesToString(attrs)
    case Footer(style, _) => " style=" + Quoted(StyleToString(style))
    case Card(style, _) => " class=\"card\" style=" + Quoted(StyleToString(style))
    case Button(style, action, _) => " style=" + Quoted(StyleToString(style)) + " " + AttributesToString(action)
    case Table(style, _) => " style=" + Quoted(StyleToString(style))
    case UnorderedList(style, _) => " style=" + Quoted(StyleToString(style))
    case BulletItem(_, _) => ""
    case OrderedList(style, _) => " style=" + Quoted(StyleToString(style))
    case OrderedItem(number, _) => " value=" + Quoted(number)
    case Row(style, _) => " class=\"row\" style=" + Quoted(StyleToString(style))
    case Column(style, _) => " class=\"column\" style=" + Quoted(StyleToString(style))
  }

  /** The open line of a container. */
  function OpenTag(s: Statement): string
    requires IsContainer(s)
  {
    "<" + TagName(s) + OpenAttributes(s) + ">"
  }

  /** The close line of a container: it closes the element its open line opens. */
  function CloseTag(s: Statement): string
    requires IsContainer(s)
  {
    match s
    case Nav(_, _, _) => "</nav>"
    case Form(_, _, _) => "</form>"
    case Footer(_, _) => "</footer>"
    case Button(_, _, _) => "</button>"
    case Table(_, _) => "</table>"
    case UnorderedList(_, _) => "</ul>"
    case OrderedList(_, _) => "</ol>"
    case BulletItem(_, _) => "</li>"
    case OrderedItem(_, _) => "</li>"
    case _ => "</div>"
  }

  /** The line of a text-bearing statement between its open and close tags. */
  function TextLine(indent: nat, open: string, close: string, st: SymbolTable.Table, raw: string): Line {
    (indent, open + Resolve(st, raw) + close)
  }

  function NavLines(indent: nat, items: seq<NavItem>): (r: seq<Line>)
    ensures |r| == |items|
    ensures forall k :: 0 <= k < |r| ==> r[k] == (indent, "<a href=" + Quoted(items[k].link) + ">" + items[k].caption + "</a>")
  {
    if |items| == 0 then []
    else [(indent, "<a href=" + Quoted(items[0].link) + ">" + items[0].caption + "</a>")] + NavLines(indent, items[1..])
  }

  function FormLines(indent: nat, items: seq<FormItem>): (r: seq<Line>)
    ensures |r| == |items|
    ensures forall k :: 0 <= k < |r| ==>
              r[k] == (indent, "<label>" + items[k].caption + "<input placeholder=" + Quoted(items[k].placeholder) + "/></label>")
  {
    if |items| == 0 then []
    else [(indent, "<label>" + items[0].caption + "<input placeholder=" + Quoted(items[0].placeholder) + "/></label>")]
         + FormLines(indent, items[1..])
  }

  /** An open line at `indent`, the inner lines, a close line at `indent`. */
  function Wrap(indent: nat, open: string, inner: Gen, close: string): Gen {
    Gen([(indent, open)] + inner.lines + [(indent, close)], inner.registry)
  }

  /** `_generateStatement` for a statement that is present. */
  function GenStatement(indent: nat, s: Statement, st: SymbolTable.Table, reg: Registry, fuel: nat): Gen
    decreases fuel, s, 1
  {
    if IsContainer(s) then Wrap(indent, OpenTag(s), GenInner(indent, s, st, reg, fuel), CloseTag(s))
    else
      match s
      case Header1(t) => Gen([TextLine(indent, "<h1>", "</h1>", st, t)], reg)
      case Header2(t) => Gen([TextLine(indent, "<h2>", "</h2>", st, t)], reg)
      case Header3(t) => Gen([TextLine(indent, "<h3>", "</h3>", st, t)], reg)
      case Paragraph(t) => Gen([TextLine(indent, "<p>", "</p>", st, t)], reg)
      case Image(src, alt, style) =>
        Gen([(indent, "<img src=" + Quoted(src) + " alt=" + Quoted(alt) + " style=" + Quoted(StyleToString(style)) + "/>")], reg)
      case Define(name, parameters, style, body) =>
        Gen([], reg + [DefineEntry(name, parameters, style, body)])
      case Use(name, actuals) => (
        match FindDefine(reg, name)
        case None => Gen([], reg)
        case Some(i) =>
          var bound := reg[i := reg[i].(parameters := Bind(reg[i].parameters, actuals))];
          if fuel == 0 then Gen([], bound)
          else GenList(indent, reg[i].body, st, bound, fuel - 1))
      case _ => Gen([], reg)
  }

  /** What a container emits between its open and close lines. */
  function GenInner(indent: nat, s: Statement, st: SymbolTable.Table, reg: Registry, fuel: nat): Gen
    requires IsContainer(s)
    decreases fuel, s, 0
  {
    match s
    case Nav(_, _, items) => Gen(NavLines(indent + 1, items), reg)
    case Form(_, _, items) => Gen(FormLines(indent + 1, items), reg)
    case Footer(_, body) => GenList(indent + 1, body, st, reg, fuel)
    case Card(_, body) => GenList(indent + 1, body, st, reg, fuel)
    case Button(_, _, body) => GenList(indent + 1, body, st, reg, fuel)
    case Table(_, rows) => GenRows(indent, rows, st, reg, fuel)
    case UnorderedList(_, items) => GenList(indent + 1, items, st, reg, fuel)
    case BulletItem(_, item) => GenSlot(indent + 1, item, st, reg, fuel)
    case OrderedList(_, items) => GenList(indent + 1, items, st, reg, fuel)
    case OrderedItem(_, item) => GenSlot(indent + 1, item, st, reg, fuel)
    case Row(_, columns) => GenList(indent + 1, columns, st, reg, fuel)
    case Column(_, body) => GenList(indent + 1, body, st, reg, fuel)
  }

  /** `_generateStatement` on a slot, which does nothing for `NULL`. */
  function GenSlot(indent: nat, slot: Option<Statement>, st: SymbolTable.Table, reg: Registry, fuel: nat): Gen
    decreases fuel, slot
  {
    match slot
    case None => Gen([], reg)
    case Some(s) => GenStatement(indent, s, st, reg, fuel)
  }

  /** Every slot of a statement list in order, all at `indent`, threading the registry. */
  function GenList(indent: nat, list: StatementList, st: SymbolTable.Table, reg: Registry, fuel: nat): Gen
    decreases fuel, list
  {
    if |list| == 0 then Gen([], reg)
    else
      var head := GenSlot(indent, list[0], st, reg, fuel);
      var tail := GenList(indent, list[1..], st, head.registry, fuel);
      Gen(head.lines + tail.lines, tail.registry)
  }

  /** The rows of a table at `indent`: each a `tr` at `indent + 1` around its cells. */
  function GenRows(indent: nat, rows: seq<TableRow>, st: SymbolTable.Table, reg: Registry, fuel: nat): Gen
    decreases fuel, rows
  {
    if |rows| == 0 then Gen([], reg)
    else
      var row := Wrap(indent + 1, "<tr>", GenCells(indent, rows[0].cells, st, reg, fuel), "</tr>");
      var rest := GenRows(indent, rows[1..], st, row.registry, fuel);
      Gen(row.lines + rest.lines, rest.registry)
  }

  /** The cells of a row: each a `td` at `indent + 2` around its content at `indent + 3`. */
  function GenCells(indent: nat, cells: seq<TableCell>, st: SymbolTable.Table, reg: Registry, fuel: nat): Gen
    decreases fuel, cells
  {
    if |cells| == 0 then Gen([], reg)
    else
      var cell := Wrap(indent + 2, "<td>", GenList(indent + 3, cells[0].content, st, reg, fuel), "</td>");
      var rest := GenCells(indent, cells[1..], st, cell.registry, fuel);
      Gen(cell.lines + rest.lines, rest.registry)
  }

  const Prologue: string :=
    "<!DOCTYPE html>\n<html lang=\"en\">\n<head>\n  <meta charset=\"UTF-8\">\n  <title>Salida TP</title>\n</head>\n<body>"

  const Epilogue: string := "</body>\n</html>\n"

  /**
   * `generate`: the prologue at level 0, every present top-level statement at
   * level 1 starting from an empty registry, the epilogue at level 0.
   */
  function Generate(program: Program, st: SymbolTable.Table, fuel: nat): (lines: seq<Line>)
    ensures |lines| >= 2
    ensures lines[0] == (0, Prologue) && lines[|lines| - 1] == (0, Epilogue)
    ensures lines[1..|lines| - 1] == GenList(1, program.statements, st, [], fuel).lines
  {
    var body := GenList(1, program.statements, st, [], fuel);
    assert ([(0, Prologue)] + body.lines + [(0, Epilogue)])[1..|body.lines| + 1] == body.lines;
    [(0, Prologue)] + body.lines + [(0, Epilogue)]
  }
}
