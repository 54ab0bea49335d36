/**
  The tokens the lexer produces. The source's token module is not part of this
  model; the variants are the ones `src/lexer.rs` constructs.
 */
module Tokens {
  import opened Util

  datatype Token =
    | Identifier(name: string)
    | Parameter(name: string)
      /** A numeric literal, kept as its lexeme (the floating-point value is not modelled). */
    | Number(text: string)
      /** A string literal, with its escapes decoded. */
    | String(text: string)
    | KeywordIf | KeywordElse | KeywordWhile | KeywordFor | KeywordLet
    | KeywordDef | KeywordBreak | KeywordContinue | KeywordReturn
    | Plus | Hyphen | HyphenGreater | Asterisk | Slash | Percent | Circumflex
    | Equal | EqualGreater | DoubleEqual | Exclamation | ExclamationEqual
    | Less | DoubleLess | Greater | DoubleGreater
    | DoubleAmpersand | Bar | DoubleBar
    | Colon | Semicolon | Comma | Question
    | OpeningParenthesis | ClosingParenthesis
    | OpeningBracket | ClosingBracket
    | OpeningBrace | ClosingBrace

  /** The reserved-word table consulted when an identifier ends. */
  function Keyword(text: string): Option<Token> {
    if text == "if" then Some(KeywordIf)
    else if text == "else" then Some(KeywordElse)
    else if text == "while" then Some(KeywordWhile)
    else if text == "for" then Some(KeywordFor)
    else if text == "let" then Some(KeywordLet)
    else if text == "def" then Some(KeywordDef)
    else if text == "break" then Some(KeywordBreak)
    else if text == "continue" then Some(KeywordContinue)
    else if text == "return" then Some(KeywordReturn)
    else None
  }

  /** The spelling of each keyword token; no other token has one. */
  function KeywordText(t: Token): Option<string> {
    match t
    case KeywordIf => Some("if")
    case KeywordElse => Some("else")
    case KeywordWhile => Some("while")
    case KeywordFor => Some("for")
    case KeywordLet => Some("let")
    case KeywordDef => Some("def")
    case KeywordBreak => Some("break")
    case KeywordContinue => Some("continue")
    case KeywordReturn => Some("return")
    case _ => None
  }

  /** The spelling of each operator and punctuation token; no other token has one. */
  function OperatorText(t: Token): Option<string> {
    match t
    case Plus => Some("+")
    case Hyphen => Some("-")
    case HyphenGreater => Some("->")
    case Asterisk => Some("*")
    case Slash => Some("/")
    case Percent => Some("%")
    case Circumflex => Some("^")
    case Equal => Some("=")
    case EqualGreater => Some("=>")
    case DoubleEqual => Some("==")
    case Exclamation => Some("!")
    case ExclamationEqual => Some("!=")
    case Less => Some("<")
    case DoubleLess => Some("<<")
    case Greater => Some(">")
    case DoubleGreater => Some(">>")
    case DoubleAmpersand => Some("&&")
    case Bar => Some("|")
    case DoubleBar => Some("||")
    case Colon => Some(":")
    case Semicolon => Some(";")
    case Comma => Some(",")
    case Question => Some("?")
    case OpeningParenthesis => Some("(")
    case ClosingParenthesis => Some(")")
    case OpeningBracket => Some("[")
    case ClosingBracket => Some("]")
    case OpeningBrace => Some("{")
    case ClosingBrace => Some("}")
    case _ => None
  }

  /** The keyword table and the keyword spellings are inverse to each other. */
  lemma KeywordTableInverse(text: string, t: Token)
    ensures Keyword(text) == Some(t) <==> KeywordText(t) == Some(text)
  {
  }
}
