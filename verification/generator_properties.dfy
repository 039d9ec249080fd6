/**
 * What the generator's walk guarantees: where each kind of statement puts
 * its lines, how containers nest, how `define` and `use` act on the registry,
 * and the framing that `generate` adds.
 */
module GeneratorProperties {
  import opened Wrappers
  import opened Ast
  import SymbolTable
  import opened Generator

  /** Every line sits at level `d` or deeper. */
  ghost predicate AtLeast(lines: seq<Line>, d: nat) {
    forall k :: 0 <= k < |lines| ==> lines[k].0 >= d
  }

  lemma AtLeastConcat(a: seq<Line>, b: seq<Line>, d: nat)
    requires AtLeast(a, d) && AtLeast(b, d)
    ensures AtLeast(a + b, d)
  {
  }

  lemma WrapAtLeast(indent: nat, open: string, inner: Gen, close: string)
    requires AtLeast(inner.lines, indent + 1)
    ensures AtLeast(Wrap(indent, open, inner, close).lines, indent)
  {
  }

  // ------------------------------------------------------------ text leaves

  /**
   * A header or paragraph is one line at the statement's level holding the
   * symbol-table value of its text when there is one and the raw text
   * otherwise, between the matching tags; the registry is untouched.
   */
  lemma TextLeaves(indent: nat, t: string, st: SymbolTable.Table, reg: Registry, fuel: nat)
    ensures var v := SymbolTable.GetValue(st, t).GetOr(t);
            && GenStatement(indent, Header1(t), st, reg, fuel) == Gen([(indent, "<h1>" + v + "</h1>")], reg)
            && GenStatement(indent, Header2(t), st, reg, fuel) == Gen([(indent, "<h2>" + v + "</h2>")], reg)
            && GenStatement(indent, Header3(t), st, reg, fuel) == Gen([(indent, "<h3>" + v + "</h3>")], reg)
            && GenStatement(indent, Paragraph(t), st, reg, fuel) == Gen([(indent, "<p>" + v + "</p>")], reg)
  {
    assert !IsContainer(Header1(t)) && !IsContainer(Header2(t));
    assert !IsContainer(Header3(t)) && !IsContainer(Paragraph(t));
  }

  /** The plain-text kind has no case in the generator and emits nothing. */
  lemma UnsupportedEmitsNothing(indent: nat, c: string, st: SymbolTable.Table, reg: Registry, fuel: nat)
    ensures GenStatement(indent, Text(c), st, reg, fuel) == Gen([], reg)
  {
  }

  // ------------------------------------------------------------ nesting levels

  /** Nothing a statement emits lies above the statement's own level. */
  lemma {:induction false} StatementLevels(indent: nat, s: Statement, st: SymbolTable.Table, reg: Registry, fuel: nat)
    ensures AtLeast(GenStatement(indent, s, st, reg, fuel).lines, indent)
    decreases fuel, s, 1
  {
    if IsContainer(s) {
      InnerLevels(indent, s, st, reg, fuel);
      WrapAtLeast(indent, OpenTag(s), GenInner(indent, s, st, reg, fuel), CloseTag(s));
    } else if s.Use? {
      UseLevels(indent, s.name, s.parameters, st, reg, fuel);
    }
  }

  /** A container's content lies one level below the container. */
  lemma {:induction false} InnerLevels(indent: nat, s: Statement, st: SymbolTable.Table, reg: Registry, fuel: nat)
    requires IsContainer(s)
    ensures AtLeast(GenInner(indent, s, st, reg, fuel).lines, indent + 1)
    decreases fuel, s, 0
  {
    match s
    case Nav(_, _, _) =>
    case Form(_, _, _) =>
    case Footer(_, body) => ListLevels(indent + 1, body, st, reg, fuel);
    case Card(_, body) => ListLevels(indent + 1, body, st, reg, fuel);
    case Button(_, _, body) => ListLevels(indent + 1, body, st, reg, fuel);
    case Table(_, rows) => RowsShape(indent, rows, st, reg, fuel);
    case UnorderedList(_, items) => ListLevels(indent + 1, items, st, reg, fuel);
    case BulletItem(_, item) => SlotLevels(indent + 1, item, st, reg, fuel);
    case OrderedList(_, items) => ListLevels(indent + 1, items, st, reg, fuel);
    case OrderedItem(_, item) => SlotLevels(indent + 1, item, st, reg, fuel);
    case Row(_, columns) => ListLevels(indent + 1, columns, st, reg, fuel);
    case Column(_, body) => ListLevels(indent + 1, body, st, reg, fuel);
  }

  /** An expanded use emits its define's body at the use's own level. */
  lemma {:induction false} UseLevels(indent: nat, name: string, actuals: ParameterList, st: SymbolTable.Table, reg: Registry, fuel: nat)
    ensures AtLeast(GenStatement(indent, Use(name, actuals), st, reg, fuel).lines, indent)
    decreases fuel, Use(name, actuals), 0
  {
    assert !IsContainer(Use(name, actuals));
    match FindDefine(reg, name)
    case None =>
    case Some(i) =>
      if fuel > 0 {
        var bound := reg[i := reg[i].(parameters := Bind(reg[i].parameters, actuals))];
        ListLevels(indent, reg[i].body, st, bound, fuel - 1);
      }
  }

  lemma {:induction false} SlotLevels(indent: nat, slot: Option<Statement>, st: SymbolTable.Table, reg: Registry, fuel: nat)
    ensures AtLeast(GenSlot(indent, slot, st, reg, fuel).lines, indent)
    decreases fuel, slot
  {
    if slot.Some? {
      StatementLevels(indent, slot.value, st, reg, fuel);
    }
  }

  /** Nothing a statement list emits lies above the list's level. */
  lemma {:induction false} ListLevels(indent: nat, list: StatementList, st: SymbolTable.Table, reg: Registry, fuel: nat)
    ensures AtLeast(GenList(indent, list, st, reg, fuel).lines, indent)
    decreases fuel, list
  {
    if |list| > 0 {
      var head := GenSlot(indent, list[0], st, reg, fuel);
      SlotLevels(indent, list[0], st, reg, fuel);
      ListLevels(indent, list[1..], st, head.registry, fuel);
    }
  }

  /** The lines of a table body: `tr` lines one level in, `td` lines two in, content deeper. */
  ghost predicate TableBody(lines: seq<Line>, indent: nat) {
    forall k :: 0 <= k < |lines| ==>
      && lines[k].0 >= indent + 1
      && (lines[k].0 == indent + 1 ==> lines[k].1 == "<tr>" || lines[k].1 == "</tr>")
      && (lines[k].0 == indent + 2 ==> lines[k].1 == "<td>" || lines[k].1 == "</td>")
  }

  /** The cells of a row: `td` lines two levels in, content three levels in. */
  ghost predicate RowBody(lines: seq<Line>, indent: nat) {
    forall k :: 0 <= k < |lines| ==>
      && lines[k].0 >= indent + 2
      && (lines[k].0 == indent + 2 ==> lines[k].1 == "<td>" || lines[k].1 == "</td>")
  }

  /** A table emits `tr` at one level in, `td` at two and cell content at three or deeper. */
  lemma {:induction false} RowsShape(indent: nat, rows: seq<TableRow>, st: SymbolTable.Table, reg: Registry, fuel: nat)
    ensures TableBody(GenRows(indent, rows, st, reg, fuel).lines, indent)
    ensures AtLeast(GenRows(indent, rows, st, reg, fuel).lines, indent + 1)
    decreases fuel, rows
  {
    if |rows| > 0 {
      var cells := GenCells(indent, rows[0].cells, st, reg, fuel);
      CellsShape(indent, rows[0].cells, st, reg, fuel);
      var row := Wrap(indent + 1, "<tr>", cells, "</tr>");
      RowsShape(indent, rows[1..], st, row.registry, fuel);
      var rest := GenRows(indent, rows[1..], st, row.registry, fuel);
      assert TableBody(row.lines, indent) by {
        forall k | 0 <= k < |row.lines|
          ensures row.lines[k].0 >= indent + 1
          ensures row.lines[k].0 == indent + 1 ==> row.lines[k].1 == "<tr>" || row.lines[k].1 == "</tr>"
          ensures row.lines[k].0 == indent + 2 ==> row.lines[k].1 == "<td>" || row.lines[k].1 == "</td>"
        {
          if 0 < k < |row.lines| - 1 {
            assert row.lines[k] == cells.lines[k - 1];
          }
        }
      }
    }
  }

  lemma {:induction false} CellsShape(indent: nat, cells: seq<TableCell>, st: SymbolTable.Table, reg: Registry, fuel: nat)
    ensures RowBody(GenCells(indent, cells, st, reg, fuel).lines, indent)
    decreases fuel, cells
  {
    if |cells| > 0 {
      var content := GenList(indent + 3, cells[0].content, st, reg, fuel);
      ListLevels(indent + 3, cells[0].content, st, reg, fuel);
      var cell := Wrap(indent + 2, "<td>", content, "</td>");
      CellsShape(indent, cells[1..], st, cell.registry, fuel);
      assert RowBody(cell.lines, indent) by {
        forall k | 0 <= k < |cell.lines|
          ensures cell.lines[k].0 >= indent + 2
          ensures cell.lines[k].0 == indent + 2 ==> cell.lines[k].1 == "<td>" || cell.lines[k].1 == "</td>"
        {
          if 0 < k < |cell.lines| - 1 {
            assert cell.lines[k] == content.lines[k - 1];
          }
        }
      }
    }
  }

  /** A wrapped block: open line, the inner lines one level deeper, close line. */
  lemma WrapShape(indent: nat, open: string, inner: Gen, close: string)
    requires AtLeast(inner.lines, indent + 1)
    ensures var lines := Wrap(indent, open, inner, close).lines;
            && |lines| >= 2
            && lines[0] == (indent, open)
            && lines[|lines| - 1] == (indent, close)
            && lines[1..|lines| - 1] == inner.lines
            && AtLeast(lines[1..|lines| - 1], indent + 1)
  {
  }

  /** The close line C writes for each kind names the same element as its open line. */
  lemma CloseTagNamesElement(s: Statement)
    requires IsContainer(s)
    ensures CloseTag(s) == "</" + TagName(s) + ">"
  {
  }

  /**
   * Every container emits its open line at its own level, then its content
   * one level deeper, then a close line at its own level that closes the
   * element the open line opened.
   */
  lemma ContainerShape(indent: nat, s: Statement, st: SymbolTable.Table, reg: Registry, fuel: nat)
    requires IsContainer(s)
    ensures var lines := GenStatement(indent, s, st, reg, fuel).lines;
            && |lines| >= 2
            && lines[0] == (indent, OpenTag(s))
            && lines[|lines| - 1] == (indent, CloseTag(s))
            && AtLeast(lines[1..|lines| - 1], indent + 1)
    ensures OpenTag(s)[..|TagName(s)| + 1] == "<" + TagName(s)
    ensures CloseTag(s) == "</" + TagName(s) + ">"
  {
    CloseTagNamesElement(s);
    InnerLevels(indent, s, st, reg, fuel);
    WrapShape(indent, OpenTag(s), GenInner(indent, s, st, reg, fuel), CloseTag(s));
    assert OpenTag(s) == "<" + TagName(s) + (OpenAttributes(s) + ">");
  }

  // ------------------------------------------------------------ statement lists

  /** Walking two lists one after the other is walking their concatenation. */
  lemma {:induction false} ListConcat(indent: nat, a: StatementList, b: StatementList,
                                      st: SymbolTable.Table, reg: Registry, fuel: nat)
    ensures var ga := GenList(indent, a, st, reg, fuel);
            var gb := GenList(indent, b, st, ga.registry, fuel);
            GenList(indent, a + b, st, reg, fuel) == Gen(ga.lines + gb.lines, gb.registry)
    decreases |a|
  {
    if |a| == 0 {
      assert a + b == b;
    } else {
      assert (a + b)[0] == a[0];
      assert (a + b)[1..] == a[1..] + b;
      var head := GenSlot(indent, a[0], st, reg, fuel);
      ListConcat(indent, a[1..], b, st, head.registry, fuel);
    }
  }

  /** A `NULL` slot anywhere in a list changes neither the output nor the registry. */
  lemma NullSlotIgnored(indent: nat, a: StatementList, b: StatementList,
                        st: SymbolTable.Table, reg: Registry, fuel: nat)
    ensures GenList(indent, a + [None] + b, st, reg, fuel) == GenList(indent, a + b, st, reg, fuel)
  {
    ListConcat(indent, a + [None], b, st, reg, fuel);
    ListConcat(indent, a, [None], st, reg, fuel);
    ListConcat(indent, a, b, st, reg, fuel);
  }

  // ------------------------------------------------------------ the registry

  /**
   * `after` keeps every entry of `before` in place with the same name, style,
   * body and parameter keys, and may add entries at the tail; only parameter
   * values may change.
   */
  ghost predicate Extends(before: Registry, after: Registry) {
    && |before| <= |after|
    && forall k :: 0 <= k < |before| ==>
         && after[k].name == before[k].name
         && after[k].style == before[k].style
         && after[k].body == before[k].body
         && |after[k].parameters| == |before[k].parameters|
         && forall j :: 0 <= j < |before[k].parameters| ==>
              after[k].parameters[j].key == before[k].parameters[j].key
  }

  lemma ExtendsTransitive(a: Registry, b: Registry, c: Registry)
    requires Extends(a, b) && Extends(b, c)
    ensures Extends(a, c)
  {
  }

  /** A walk only appends defines and rebinds parameter values. */
  lemma {:induction false} StatementExtends(indent: nat, s: Statement, st: SymbolTable.Table, reg: Registry, fuel: nat)
    ensures Extends(reg, GenStatement(indent, s, st, reg, fuel).registry)
    decreases fuel, s, 1
  {
    if IsContainer(s) {
      InnerExtends(indent, s, st, reg, fuel);
    } else if s.Use? {
      UseExtends(indent, s.name, s.parameters, st, reg, fuel);
    }
  }

  lemma {:induction false} InnerExtends(indent: nat, s: Statement, st: SymbolTable.Table, reg: Registry, fuel: nat)
    requires IsContainer(s)
    ensures Extends(reg, GenInner(indent, s, st, reg, fuel).registry)
    decreases fuel, s, 0
  {
    match s
    case Nav(_, _, _) =>
    case Form(_, _, _) =>
    case Footer(_, body) => ListExtends(indent + 1, body, st, reg, fuel);
    case Card(_, body) => ListExtends(indent + 1, body, st, reg, fuel);
    case Button(_, _, body) => ListExtends(indent + 1, body, st, reg, fuel);
    case Table(_, rows) => RowsExtends(indent, rows, st, reg, fuel);
    case UnorderedList(_, items) => ListExtends(indent + 1, items, st, reg, fuel);
    case BulletItem(_, item) => SlotExtends(indent + 1, item, st, reg, fuel);
    case OrderedList(_, items) => ListExtends(indent + 1, items, st, reg, fuel);
    case OrderedItem(_, item) => SlotExtends(indent + 1, item, st, reg, fuel);
    case Row(_, columns) => ListExtends(indent + 1, columns, st, reg, fuel);
    case Column(_, body) => ListExtends(indent + 1, body, st, reg, fuel);
  }

  /** A use only rebinds the values of its entry, and its expansion only extends further. */
  lemma {:induction false} UseExtends(indent: nat, name: string, actuals: ParameterList, st: SymbolTable.Table, reg: Registry, fuel: nat)
    ensures Extends(reg, GenStatement(indent, Use(name, actuals), st, reg, fuel).registry)
    decreases fuel, Use(name, actuals), 0
  {
    assert !IsContainer(Use(name, actuals));
    match FindDefine(reg, name)
    case None =>
    case Some(i) =>
      var bound := reg[i := reg[i].(parameters := Bind(reg[i].parameters, actuals))];
      assert Extends(reg, bound);
      if fuel > 0 {
        ListExtends(indent, reg[i].body, st, bound, fuel - 1);
        ExtendsTransitive(reg, bound, GenList(indent, reg[i].body, st, bound, fuel - 1).registry);
      }
  }

  lemma {:induction false} SlotExtends(indent: nat, slot: Option<Statement>, st: SymbolTable.Table, reg: Registry, fuel: nat)
    ensures Extends(reg, GenSlot(indent, slot, st, reg, fuel).registry)
    decreases fuel, slot
  {
    if slot.Some? {
      StatementExtends(indent, slot.value, st, reg, fuel);
    }
  }

  lemma {:induction false} ListExtends(indent: nat, list: StatementList, st: SymbolTable.Table, reg: Registry, fuel: nat)
    ensures Extends(reg, GenList(indent, list, st, reg, fuel).registry)
    decreases fuel, list
  {
    if |list| > 0 {
      var head := GenSlot(indent, list[0], st, reg, fuel);
      SlotExtends(indent, list[0], st, reg, fuel);
      ListExtends(indent, list[1..], st, head.registry, fuel);
      ExtendsTransitive(reg, head.registry, GenList(indent, list[1..], st, head.registry, fuel).registry);
    }
  }

  lemma {:induction false} RowsExtends(indent: nat, rows: seq<TableRow>, st: SymbolTable.Table, reg: Registry, fuel: nat)
    ensures Extends(reg, GenRows(indent, rows, st, reg, fuel).registry)
    decreases fuel, rows
  {
    if |rows| > 0 {
      var cells := GenCells(indent, rows[0].cells, st, reg, fuel);
      CellsExtends(indent, rows[0].cells, st, reg, fuel);
      RowsExtends(indent, rows[1..], st, cells.registry, fuel);
      ExtendsTransitive(reg, cells.registry, GenRows(indent, rows[1..], st, cells.registry, fuel).registry);
    }
  }

  lemma {:induction false} CellsExtends(indent: nat, cells: seq<TableCell>, st: SymbolTable.Table, reg: Registry, fuel: nat)
    ensures Extends(reg, GenCells(indent, cells, st, reg, fuel).registry)
    decreases fuel, cells
  {
    if |cells| > 0 {
      var content := GenList(indent + 3, cells[0].content, st, reg, fuel);
      ListExtends(indent + 3, cells[0].content, st, reg, fuel);
      CellsExtends(indent, cells[1..], st, content.registry, fuel);
      ExtendsTransitive(reg, content.registry, GenCells(indent, cells[1..], st, content.registry, fuel).registry);
    }
  }

  // ------------------------------------------------------------ define and use

  /** A define emits nothing and registers its name, parameters, style and body at the tail. */
  lemma DefineRegisters(indent: nat, name: string, ps: ParameterList, style: ParameterList, body: StatementList,
                        st: SymbolTable.Table, reg: Registry, fuel: nat)
    ensures GenStatement(indent, Define(name, ps, style, body), st, reg, fuel)
            == Gen([], reg + [DefineEntry(name, ps, style, body)])
  {
  }

  /** A use whose name is not registered emits nothing and changes nothing. */
  lemma UseWithoutDefine(indent: nat, name: string, actuals: ParameterList,
                         st: SymbolTable.Table, reg: Registry, fuel: nat)
    requires forall k :: 0 <= k < |reg| ==> reg[k].name != name
    ensures GenStatement(indent, Use(name, actuals), st, reg, fuel) == Gen([], reg)
  {
  }

  /**
   * A use whose name is registered picks the first entry with that name,
   * rebinds that entry's parameter values positionally and emits the entry's
   * body at the use's own level, against the rebound registry.
   */
  lemma UseExpandsFirstMatch(indent: nat, name: string, actuals: ParameterList,
                             st: SymbolTable.Table, reg: Registry, fuel: nat, i: nat)
    requires i < |reg| && reg[i].name == name
    requires forall k :: 0 <= k < i ==> reg[k].name != name
    ensures var bound := reg[i := reg[i].(parameters := Bind(reg[i].parameters, actuals))];
            GenStatement(indent, Use(name, actuals), st, reg, fuel + 1)
            == GenList(indent, reg[i].body, st, bound, fuel)
  {
  }

  lemma FindDefineFirst(reg: Registry, name: string, i: nat)
    requires i < |reg| && reg[i].name == name
    requires forall k :: 0 <= k < i ==> reg[k].name != name
    ensures FindDefine(reg, name) == Some(i)
  {
  }

  /** A use reached before its define emits nothing; the define still registers. */
  lemma UseBeforeDefine(indent: nat, name: string, actuals: ParameterList, ps: ParameterList,
                        style: ParameterList, body: StatementList, st: SymbolTable.Table, reg: Registry, fuel: nat)
    requires forall k :: 0 <= k < |reg| ==> reg[k].name != name
    ensures GenList(indent, [Some(Use(name, actuals)), Some(Define(name, ps, style, body))], st, reg, fuel)
            == Gen([], reg + [DefineEntry(name, ps, style, body)])
  {
    var l := [Some(Use(name, actuals)), Some(Define(name, ps, style, body))];
    assert l[1..] == [Some(Define(name, ps, style, body))];
    assert l[1..][1..] == [];
    assert FindDefine(reg, name) == None;
    assert GenSlot(indent, l[0], st, reg, fuel) == Gen([], reg);
    DefineRegisters(indent, name, ps, style, body, st, reg, fuel);
    assert GenList(indent, l[1..], st, reg, fuel) == Gen([], reg + [DefineEntry(name, ps, style, body)]);
  }

  /**
   * A define followed by a use of it: the use emits the body at the list's
   * level, with the defined parameters rebound to the use's values.
   */
  lemma DefineThenUse(indent: nat, name: string, actuals: ParameterList, ps: ParameterList,
                      style: ParameterList, body: StatementList, st: SymbolTable.Table, reg: Registry, fuel: nat)
    requires forall k :: 0 <= k < |reg| ==> reg[k].name != name
    ensures GenList(indent, [Some(Define(name, ps, style, body)), Some(Use(name, actuals))], st, reg, fuel + 1).lines
            == GenList(indent, body, st, reg + [DefineEntry(name, Bind(ps, actuals), style, body)], fuel).lines
  {
    var l := [Some(Define(name, ps, style, body)), Some(Use(name, actuals))];
    var reg1 := reg + [DefineEntry(name, ps, style, body)];
    var reg2 := reg + [DefineEntry(name, Bind(ps, actuals), style, body)];
    assert l[1..] == [Some(Use(name, actuals))];
    assert l[1..][1..] == [];
    DefineRegisters(indent, name, ps, style, body, st, reg, fuel + 1);
    FindDefineFirst(reg1, name, |reg|);
    assert reg1[|reg| := reg1[|reg|].(parameters := Bind(ps, actuals))] == reg2;
    var expansion := GenList(indent, body, st, reg2, fuel);
    assert GenSlot(indent, l[1], st, reg1, fuel + 1) == expansion;
    assert GenList(indent, l[1..], st, reg1, fuel + 1).lines == expansion.lines + [];
    assert GenList(indent, l, st, reg, fuel + 1).lines == [] + (expansion.lines + []);
  }

  /** `Bind` with no actuals keeps every value. */
  lemma BindNothing(formals: ParameterList)
    ensures Bind(formals, []) == formals
  {
  }

  /**
   * Rebound values stay in the registry: after `define`, `use` with values and
   * `use` without values (of a template with an empty body), the entry holds
   * the values the first use bound.
   */
  lemma BoundValuesPersist(indent: nat, name: string, actuals: ParameterList, ps: ParameterList,
                           style: ParameterList, st: SymbolTable.Table, reg: Registry, fuel: nat)
    requires forall k :: 0 <= k < |reg| ==> reg[k].name != name
    ensures GenList(indent, [Some(Define(name, ps, style, [])), Some(Use(name, actuals)), Some(Use(name, []))],
                    st, reg, fuel)
            == Gen([], reg + [DefineEntry(name, Bind(ps, actuals), style, [])])
  {
    var l := [Some(Define(name, ps, style, [])), Some(Use(name, actuals)), Some(Use(name, []))];
    var reg1 := reg + [DefineEntry(name, ps, style, [])];
    var reg2 := reg + [DefineEntry(name, Bind(ps, actuals), style, [])];
    assert l[1..] == [Some(Use(name, actuals)), Some(Use(name, []))];
    assert l[1..][1..] == [Some(Use(name, []))];
    assert l[1..][1..][1..] == [];
    DefineRegisters(indent, name, ps, style, [], st, reg, fuel);
    FindDefineFirst(reg1, name, |reg|);
    assert reg1[|reg| := reg1[|reg|].(parameters := Bind(ps, actuals))] == reg2;
    UseOfEmptyBody(indent, name, actuals, st, reg1, fuel, |reg|);
    FindDefineFirst(reg2, name, |reg|);
    BindNothing(Bind(ps, actuals));
    assert reg2[|reg| := reg2[|reg|].(parameters := Bind(reg2[|reg|].parameters, []))] == reg2;
    UseOfEmptyBody(indent, name, [], st, reg2, fuel, |reg|);
    assert GenList(indent, l[1..][1..], st, reg2, fuel) == Gen([], reg2);
    assert GenList(indent, l[1..], st, reg1, fuel) == Gen([], reg2);
  }

  /** A use of a define whose body is empty emits nothing and only rebinds. */
  lemma UseOfEmptyBody(indent: nat, name: string, actuals: ParameterList,
                       st: SymbolTable.Table, reg: Registry, fuel: nat, i: nat)
    requires FindDefine(reg, name) == Some(i) && reg[i].body == []
    ensures GenStatement(indent, Use(name, actuals), st, reg, fuel)
            == Gen([], reg[i := reg[i].(parameters := Bind(reg[i].parameters, actuals))])
  {
  }

  /**
   * A `use` without values rebinds nothing, whatever the template's body: it
   * walks the body against the values the template holds at that moment.
   */
  lemma UseWithoutValues(indent: nat, name: string, st: SymbolTable.Table, reg: Registry, fuel: nat, i: nat)
    requires FindDefine(reg, name) == Some(i)
    ensures GenStatement(indent, Use(name, []), st, reg, fuel)
            == if fuel == 0 then Gen([], reg) else GenList(indent, reg[i].body, st, reg, fuel - 1)
  {
    BindNothing(reg[i].parameters);
    assert reg[i := reg[i].(parameters := Bind(reg[i].parameters, []))] == reg;
  }

  // ------------------------------------------------------------ the document

  /** Everything between prologue and epilogue lies at level 1 or deeper. */
  lemma DocumentLevels(program: Program, st: SymbolTable.Table, fuel: nat)
    ensures var lines := Generate(program, st, fuel);
            AtLeast(lines[1..|lines| - 1], 1)
  {
    ListLevels(1, program.statements, st, [], fuel);
  }

  /** The table of the greeting example: `name` holds `World`, `Title` is not a variable. */
  lemma GreetingTable()
    ensures var st := SymbolTable.Insert(SymbolTable.Create(), "name", SymbolTable.SymVar, Some("World")).0;
            && Resolve(st, "Title") == "Title"
            && Resolve(st, "name") == "World"
  {
  }

  /** The body of the greeting example, given how its two texts resolve. */
  lemma GreetingBody(st: SymbolTable.Table, fuel: nat)
    requires Resolve(st, "Title") == "Title" && Resolve(st, "name") == "World"
    ensures GenList(1, [Some(Header1("Title")), Some(Paragraph("name"))], st, [], fuel).lines
            == [(1, "<h1>Title</h1>"), (1, "<p>World</p>")]
  {
    var l := [Some(Header1("Title")), Some(Paragraph("name"))];
    assert l[1..] == [Some(Paragraph("name"))];
    assert l[1..][1..] == [];
    assert !IsContainer(Header1("Title")) && !IsContainer(Paragraph("name"));
    assert "<h1>" + "Title" + "</h1>" == "<h1>Title</h1>";
    assert TextLine(1, "<h1>", "</h1>", st, "Title") == (1, "<h1>Title</h1>");
    assert "<p>" + "World" + "</p>" == "<p>World</p>";
    assert TextLine(1, "<p>", "</p>", st, "name") == (1, "<p>World</p>");
    assert GenSlot(1, l[0], st, [], fuel) == Gen([(1, "<h1>Title</h1>")], []);
    assert GenSlot(1, l[1], st, [], fuel) == Gen([(1, "<p>World</p>")], []);
    assert GenList(1, l[1..], st, [], fuel).lines == [(1, "<p>World</p>")];
  }

  /**
   * A title header and a paragraph naming the variable `name`, which holds
   * `World`: the document is the prologue, `<h1>Title</h1>`, `<p>World</p>`
   * and the epilogue.
   */
  lemma TitleAndGreeting(fuel: nat)
    ensures var st := SymbolTable.Insert(SymbolTable.Create(), "name", SymbolTable.SymVar, Some("World")).0;
            Generate(Program([Some(Header1("Title")), Some(Paragraph("name"))]), st, fuel)
            == [(0, Prologue), (1, "<h1>Title</h1>"), (1, "<p>World</p>"), (0, Epilogue)]
  {
    var st := SymbolTable.Insert(SymbolTable.Create(), "name", SymbolTable.SymVar, Some("World")).0;
    GreetingTable();
    GreetingBody(st, fuel);
    var doc := Generate(Program([Some(Header1("Title")), Some(Paragraph("name"))]), st, fuel);
    assert doc[1..|doc| - 1] == [(1, "<h1>Title</h1>"), (1, "<p>World</p>")];
  }
}
