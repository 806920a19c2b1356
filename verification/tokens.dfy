/** Tokens produced by the lexer (the `Token` dataclass of lexer.py). */
module Tokens {
  import opened Wrappers

  /** The value of a NUMBER token: an integer, or a float kept as its
      digit text (floating point is not interpreted by this model). */
  datatype NumLit = IntLit(n: nat) | FloatLit(text: string)

  /** The token type together with the value the lexer attaches to it.
      Keyword, INDENT, DEDENT, NEWLINE and EOF tokens carry no payload:
      their value is fixed by the kind. */
  datatype Kind =
    | Number(num: NumLit)
    | Str(text: string)
    | Ident(name: string)
    | TrueKw
    | FalseKw
    | ReturnKw
    | BreakKw
    | ContinueKw
    | Equals
    | Indent
    | Dedent
    | Newline
    | Eof

  datatype Token = Token(kind: Kind, line: int, column: int)

  /** The `type` field of a token: the source keeps it as one of these
      thirteen strings, listed here as an enumeration. */
  datatype TokenType =
    NUMBER | STRING | IDENTIFIER | TRUE | FALSE | RETURN | BREAK | CONTINUE
    | EQUALS | INDENT | DEDENT | NEWLINE | EOF

  /** The type of a token of kind `k`. */
  function TypeOf(k: Kind): (t: TokenType)
    ensures t == IDENTIFIER <==> k.Ident?
    ensures t == NUMBER <==> k.Number?
    ensures t == STRING <==> k.Str?
  {
    match k
    case Number(_) => NUMBER
    case Str(_) => STRING
    case Ident(_) => IDENTIFIER
    case TrueKw => TRUE
    case FalseKw => FALSE
    case ReturnKw => RETURN
    case BreakKw => BREAK
    case ContinueKw => CONTINUE
    case Equals => EQUALS
    case Indent => INDENT
    case Dedent => DEDENT
    case Newline => NEWLINE
    case Eof => EOF
  }

  /** The type string as it appears in parser error messages. */
  function TypeName(t: TokenType): string
  {
    match t
    case NUMBER => "NUMBER"
    case STRING => "STRING"
    case IDENTIFIER => "IDENTIFIER"
    case TRUE => "TRUE"
    case FALSE => "FALSE"
    case RETURN => "RETURN"
    case BREAK => "BREAK"
    case CONTINUE => "CONTINUE"
    case EQUALS => "EQUALS"
    case INDENT => "INDENT"
    case DEDENT => "DEDENT"
    case NEWLINE => "NEWLINE"
    case EOF => "EOF"
  }

  /** The lexer's KEYWORDS table: the reserved words and their kinds. */
  function KeywordKind(word: string): (r: Option<Kind>)
    ensures r.Some? <==> word in {"true", "false", "return", "break", "continue"}
    ensures r.Some? ==> !r.value.Ident?
    ensures r == Some(TrueKw) <==> word == "true"
    ensures r == Some(FalseKw) <==> word == "false"
    ensures r == Some(ReturnKw) <==> word == "return"
    ensures r == Some(BreakKw) <==> word == "break"
    ensures r == Some(ContinueKw) <==> word == "continue"
  {
    if word == "true" then Some(TrueKw)
    else if word == "false" then Some(FalseKw)
    else if word == "return" then Some(ReturnKw)
    else if word == "break" then Some(BreakKw)
    else if word == "continue" then Some(ContinueKw)
    else None
  }

  /** Number of tokens of kind `k` in `ts`. */
  function Count(ts: seq<Token>, k: Kind): nat
  {
    if |ts| == 0 then 0
    else Count(ts[..|ts| - 1], k) + (if ts[|ts| - 1].kind == k then 1 else 0)
  }

  lemma {:induction false} CountAppend(a: seq<Token>, b: seq<Token>, k: Kind)
    ensures Count(a + b, k) == Count(a, k) + Count(b, k)
    decreases |b|
  {
    if |b| == 0 {
      assert a + b == a;
    } else {
      var b' := b[..|b| - 1];
      assert (a + b)[..|a + b| - 1] == a + b';
      CountAppend(a, b', k);
    }
  }

  /** No two consecutive NEWLINE tokens. */
  predicate NoAdjacentNewlines(ts: seq<Token>)
  {
    forall i | 0 <= i < |ts| - 1 :: !(ts[i].kind == Newline && ts[i + 1].kind == Newline)
  }
}
