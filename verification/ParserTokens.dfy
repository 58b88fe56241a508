/** The tokens the parser distinguishes, as kinds of the lexer's tokens. */
module ParserTokens {
  import opened LexSpec

  datatype Kind =
    | Num(value: int)
    | Name(text: string)
    | Chr(c: char)
    | Plus | Minus | Star | Slash | Percent
    | LParen | RParen | LBracket | RBracket
    | Lt | Gt | Shr
    | Comma | Amp | ColonColon
    | True | False | Mut | Const | Constexpr | ThreadLocal | Raw | Own | UnitWord
    | Other(tok: Tok)
}
