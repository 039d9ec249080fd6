/**
 * The lexeme actions the scanner runs on each match: each one maps the matched
 * lexeme to the token handed to the parser and, for most, also fills in the
 * parser's semantic value (the token and, for some, a string payload).
 */
module FlexActions {
  import opened Wrappers

  /**
   * Parser tokens named by the actions. `Supplied` stands for a token of the
   * grammar that an action does not name itself but receives from its caller
   * (the header, style and table actions).
   */
  datatype Token =
    | DEFINE | USE | FORM | IMG | ROW | COLUMN | END | FOOTER | BUTTON | CARD | NAV
    | ITEM | VARIABLE | ORDERED_ITEM | BULLET
    | OPEN_PAREN | CLOSE_PAREN | COLON | COMMA | EQUALS
    | QUOTED_VALUE | IDENTIFIER | UNQUOTED_VALUE | NEWLINE | UNKNOWN
    | Supplied(code: nat)

  /** One lexeme action per scanner rule, with the token argument where the C function takes one. */
  datatype Action =
    | BeginMultilineComment | EndMultilineComment | Ignored | Unknown
    | Define | Use | Form | Img | Row | Column | End | Footer | Button | Card | Nav
    | Item | Variable | Header(token: Token) | OrderedItem | Bullet | Style(token: Token)
    | OpenParenthesis | CloseParenthesis | Colon | Comma | Equal | Table(token: Token)
    | QuotedValue | QuotedParameterValue | Identifier | UnquotedValue | Newline

  /** What an action writes into the parser's semantic value. */
  datatype SemanticValue = SemanticValue(token: Token, text: Option<string>)

  /**
   * The effect of an action: `NoToken` for the actions that return nothing,
   * `Emit` with the returned token and the semantic value written (`None` when
   * the action writes none).
   */
  datatype Outcome = NoToken | Emit(token: Token, value: Option<SemanticValue>)

  predicate IgnoresLexeme(a: Action) {
    a.BeginMultilineComment? || a.EndMultilineComment? || a.Ignored?
  }

  /** The actions that store the raw lexeme as the string payload. */
  predicate KeepsLexeme(a: Action) {
    a.Button? || a.Card? || a.Item? || a.Variable? || a.OrderedItem? || a.Bullet?
    || a.QuotedParameterValue? || a.Identifier? || a.UnquotedValue?
  }

  /** The actions whose token is the one passed in by the caller. */
  predicate PassesToken(a: Action) {
    a.Header? || a.Style? || a.Table?
  }

  /** The token each remaining action returns, fixed by the action alone. */
  function FixedToken(a: Action): Token
    requires !IgnoresLexeme(a) && !PassesToken(a)
  {
    match a
    case Unknown => UNKNOWN
    case Define => DEFINE
    case Use => USE
    case Form => FORM
    case Img => IMG
    case Row => ROW
    case Column => COLUMN
    case End => END
    case Footer => FOOTER
    case Button => BUTTON
    case Card => CARD
    case Nav => NAV
    case Item => ITEM
    case Variable => VARIABLE
    case OrderedItem => ORDERED_ITEM
    case Bullet => BULLET
    case OpenParenthesis => OPEN_PAREN
    case CloseParenthesis => CLOSE_PAREN
    case Colon => COLON
    case Comma => COMMA
    case Equal => EQUALS
    case QuotedValue => QUOTED_VALUE
    case QuotedParameterValue => QUOTED_VALUE
    case Identifier => IDENTIFIER
    case UnquotedValue => UNQUOTED_VALUE
    case Newline => NEWLINE
  }

  /**
   * Quote stripping of `QuotedValueLexemeAction`: copy the lexeme from its
   * second character, then cut the last character of the copy.
   */
  function StripQuotes(lexeme: string): (s: string)
    requires |lexeme| >= 2
    ensures |s| == |lexeme| - 2 && s == lexeme[1..|lexeme| - 1]
    ensures forall i :: 0 <= i < |s| ==> s[i] == lexeme[i + 1]
  {
    var copy := lexeme[1..];
    copy[..|copy| - 1]
  }

  /** Stripping undoes quoting: a quoted string gives back its contents. */
  lemma StripQuotesOfQuoted(q: char, s: string)
    ensures StripQuotes([q] + s + [q]) == s
  {
  }

  /** And a lexeme is its first character, its stripped contents and its last character. */
  lemma QuotedOfStripQuotes(lexeme: string)
    requires |lexeme| >= 2
    ensures [lexeme[0]] + StripQuotes(lexeme) + [lexeme[|lexeme| - 1]] == lexeme
  {
  }

  /** Runs action `a` on `lexeme`. */
  function Act(a: Action, lexeme: string): (o: Outcome)
    requires a.QuotedValue? ==> |lexeme| >= 2
    ensures o.NoToken? <==> IgnoresLexeme(a)
    ensures a.Unknown? ==> o == Emit(UNKNOWN, None)
    ensures o.Emit? && !a.Unknown? ==> o.value.Some? && o.value.value.token == o.token
    ensures PassesToken(a) ==> o.token == a.token && o.value.value.text.None?
    ensures !IgnoresLexeme(a) && !PassesToken(a) ==> o.token == FixedToken(a)
    ensures KeepsLexeme(a) ==> o.value.value.text == Some(lexeme)
    ensures a.QuotedValue? ==> o.value.value.text == Some(lexeme[1..|lexeme| - 1])
    ensures !IgnoresLexeme(a) && !a.Unknown? && !KeepsLexeme(a) && !a.QuotedValue? ==>
              o.value.value.text.None?
  {
    if IgnoresLexeme(a) then NoToken
    else if a.Unknown? then Emit(UNKNOWN, None)
    else if PassesToken(a) then Emit(a.token, Some(SemanticValue(a.token, None)))
    else
      var t := FixedToken(a);
      var text :=
        if a.QuotedValue? then Some(StripQuotes(lexeme))
        else if KeepsLexeme(a) then Some(lexeme)
        else None;
      Emit(t, Some(SemanticValue(t, text)))
  }

  /** Both quoted-value actions return `QUOTED_VALUE`; only one strips the quotes. */
  lemma QuotedValueActions(lexeme: string)
    requires |lexeme| >= 2
    ensures Act(QuotedValue, lexeme).token == Act(QuotedParameterValue, lexeme).token == QUOTED_VALUE
    ensures Act(QuotedParameterValue, lexeme).value.value.text == Some(lexeme)
    ensures Act(QuotedValue, lexeme).value.value.text == Some(StripQuotes(lexeme))
  {
  }

  /** Every token-returning action depends on the lexeme only through its payload. */
  lemma TokenIgnoresLexeme(a: Action, l1: string, l2: string)
    requires a.QuotedValue? ==> |l1| >= 2 && |l2| >= 2
    ensures Act(a, l1).NoToken? == Act(a, l2).NoToken?
    ensures Act(a, l1).Emit? ==> Act(a, l1).token == Act(a, l2).token
  {
  }
}
