/** What the parser does with the token streams the lexer produces. */
module ParserProps {
  import opened Wrappers
  import opened Tokens
  import Lexer
  import opened Parser

  /** A statement that starts with the RETURN keyword token is a syntax
      error: the statement parser tests for an IDENTIFIER spelled
      `return`, so the keyword falls through to the primary parser, which
      refuses it. */
  lemma ReturnKeywordRejected(ts: seq<Token>, pos: nat)
    requires pos < |ts| && ts[pos].kind == ReturnKw
    ensures ParseStatement(ts, pos) == Err(UnexpectedToken(RETURN))
  {
    assert !AssignmentAhead(ts, pos);
    assert ParsePrimary(ts, pos) == Err(UnexpectedToken(RETURN));
  }

  /** The lexer never spells a reserved word as an IDENTIFIER, so the
      `return` branch of the statement parser is never taken on lexed
      input: every `return` the lexer reads is a RETURN token. */
  lemma LexedReturnIsKeyword(src: string, ts: seq<Token>, pos: nat)
    requires Lexer.Tokenize(src) == Ok(ts) && pos < |ts|
    ensures ts[pos].kind != Ident("return")
  {
    assert ts[pos].kind.Ident? ==> KeywordKind(ts[pos].kind.name).None?;
    assert KeywordKind("return") == Some(ReturnKw);
  }
}
