/**
 * The abstract syntax tree the code generator walks. Every C linked list
 * becomes a sequence in link order; a `NULL` statement slot becomes `None`.
 */
module Ast {
  import opened Wrappers

  /** One `key`/`value` pair of a style, attribute or argument list. */
  datatype Parameter = Parameter(key: string, value: string)

  /**
   * `ParameterList *`: a `NULL` list and a list whose `head` is `NULL` are the
   * same empty sequence here.
   */
  type ParameterList = seq<Parameter>

  /** A nav link; `caption` is the C field `label`, a reserved word in Dafny. */
  datatype NavItem = NavItem(caption: string, link: string)

  /** A form field; `caption` is the C field `label`. */
  datatype FormItem = FormItem(caption: string, placeholder: string)

  /** `StatementList *`: the statements in link order, `None` for a `NULL` slot. */
  type StatementList = seq<Option<Statement>>

  datatype TableCell = TableCell(content: StatementList)

  datatype TableRow = TableRow(cells: seq<TableCell>)

  /**
   * One statement. `Header1`..`Paragraph` are the text-bearing kinds the
   * generator switches on; `Text` is the plain text kind of the statement
   * type enumeration, which the generator has no case for.
   */
  datatype Statement =
    | Header1(text: string)
    | Header2(text: string)
    | Header3(text: string)
    | Paragraph(text: string)
    | Text(content: string)
    | Image(src: string, alt: string, style: ParameterList)
    | Nav(style: ParameterList, attributes: ParameterList, navItems: seq<NavItem>)
    | Form(style: ParameterList, attributes: ParameterList, formItems: seq<FormItem>)
    | Footer(style: ParameterList, body: StatementList)
    | Card(style: ParameterList, body: StatementList)
    | Button(style: ParameterList, action: ParameterList, body: StatementList)
    | Table(style: ParameterList, rows: seq<TableRow>)
    | UnorderedList(style: ParameterList, items: StatementList)
    | BulletItem(symbol: string, item: Option<Statement>)
    | OrderedList(style: ParameterList, items: StatementList)
    | OrderedItem(number: string, item: Option<Statement>)
    | Row(style: ParameterList, columns: StatementList)
    | Column(style: ParameterList, body: StatementList)
    | Define(name: string, parameters: ParameterList, style: ParameterList, body: StatementList)
    | Use(name: string, parameters: ParameterList)

  /** The root: the top-level statements. */
  datatype Program = Program(statements: StatementList)
}
