/** The indentation-aware lexer of lexer.py: a character-level state
    machine that turns source text into NUMBER, STRING, IDENTIFIER,
    keyword, EQUALS, INDENT, DEDENT, NEWLINE and EOF tokens. */
module Lexer {
  import opened Wrappers
  import opened Tokens

  /** The only lexical error: a string literal with no closing quote,
      reported at the position of its opening quote. */
  datatype LexError = UnclosedString(line: int, column: int)

  /** Position in the source, with the 1-based line and column that
      `Lexer.advance` maintains. */
  datatype Cursor = Cursor(pos: nat, line: int, column: int)

  /** The lexer's mutable fields: cursor, emitted tokens, indentation
      stack and the `at_line_start` flag of `tokenize`. */
  datatype LexState = LexState(cur: Cursor, tokens: seq<Token>, stack: seq<nat>, atLineStart: bool)

  // ASCII character classes (`isdigit`, `isalpha`, `isalnum`)
  predicate IsDigit(c: char) { '0' <= c <= '9' }
  predicate IsAlpha(c: char) { 'a' <= c <= 'z' || 'A' <= c <= 'Z' }
  predicate IsOperatorChar(c: char) { c in "+-*/%<>=!" }
  predicate IsIdentChar(c: char) { IsAlpha(c) || IsDigit(c) || c == '_' || IsOperatorChar(c) }

  /** Moves past one character: a newline starts the next line at
      column 1, any other character moves one column right. */
  function Advance(src: string, c: Cursor): (d: Cursor)
    requires c.pos < |src|
    ensures d.pos == c.pos + 1
    ensures src[c.pos] != '\n' ==> d.line == c.line && d.column == c.column + 1
  {
    if src[c.pos] == '\n' then Cursor(c.pos + 1, c.line + 1, 1)
    else Cursor(c.pos + 1, c.line, c.column + 1)
  }

  /** The character after the current one (`peek_char()`). */
  function PeekNext(src: string, c: Cursor): Option<char>
  {
    if c.pos + 1 < |src| then Some(src[c.pos + 1]) else None
  }

  // ---------------------------------------------------------------------
  // Indentation
  // ---------------------------------------------------------------------

  /** Width of leading whitespace: a space counts one column, a tab four. */
  function IndentWidth(s: string): nat
  {
    if |s| == 0 then 0 else (if s[0] == '\t' then 4 else 1) + IndentWidth(s[1..])
  }

  /** Consumes the spaces and tabs at the cursor, adding their width to `level`. */
  function MeasureIndent(src: string, c: Cursor, level: nat): (r: (Cursor, nat))
    requires c.pos <= |src|
    ensures c.pos <= r.0.pos <= |src|
    ensures forall i | c.pos <= i < r.0.pos :: src[i] == ' ' || src[i] == '\t'
    ensures r.0.pos < |src| ==> src[r.0.pos] != ' ' && src[r.0.pos] != '\t'
    ensures r.1 == level + IndentWidth(src[c.pos..r.0.pos])
    decreases |src| - c.pos
  {
    if c.pos < |src| && (src[c.pos] == ' ' || src[c.pos] == '\t') then
      var r := MeasureIndent(src, Advance(src, c), level + (if src[c.pos] == '\t' then 4 else 1));
      assert src[c.pos..r.0.pos][1..] == src[c.pos + 1..r.0.pos];
      r
    else
      (c, level)
  }

  /** A well-formed indentation stack: starts at 0, strictly increasing. */
  predicate ValidStack(s: seq<nat>)
  {
    |s| > 0 && s[0] == 0 && forall i, j | 0 <= i < j < |s| :: s[i] < s[j]
  }

  function Top(s: seq<nat>): nat
    requires |s| > 0
  {
    s[|s| - 1]
  }

  /** Pops every level above `level`, never the bottom one. */
  function PopAbove(stack: seq<nat>, level: nat): (r: seq<nat>)
    requires ValidStack(stack)
    ensures ValidStack(r) && |r| <= |stack| && r == stack[..|r|]
    ensures Top(r) <= level
    ensures forall i | |r| <= i < |stack| :: stack[i] > level
    decreases |stack|
  {
    if |stack| > 1 && Top(stack) > level then
      var init := stack[..|stack| - 1];
      assert ValidStack(init);
      var r := PopAbove(init, level);
      assert r == stack[..|r|];
      assert forall i | |r| <= i < |stack| :: stack[i] > level by {
        forall i | |r| <= i < |stack| ensures stack[i] > level {
          if i < |stack| - 1 { assert stack[i] == init[i]; }
        }
      }
      r
    else
      stack
  }

  /** `n` DEDENT tokens at column 1 of `line`. */
  function Dedents(n: nat, line: int): (r: seq<Token>)
    ensures |r| == n && forall i | 0 <= i < n :: r[i] == Token(Dedent, line, 1)
  {
    seq(n, _ => Token(Dedent, line, 1))
  }

  /** `handle_indentation`: compares the new line's indentation with the
      top of the stack. A deeper line pushes its level and yields one
      INDENT; a shallower line pops every deeper level and yields one
      DEDENT per popped level; dedenting to a level that is not on the
      stack is not an error and pushes nothing. */
  function HandleIndentation(stack: seq<nat>, level: nat, line: int): (r: (seq<nat>, seq<Token>))
    requires ValidStack(stack)
    ensures ValidStack(r.0)
    ensures level > Top(stack) ==> r.0 == stack + [level] && r.1 == [Token(Indent, line, 1)]
    ensures level == Top(stack) ==> r.0 == stack && r.1 == []
    ensures level < Top(stack) ==>
      && |r.0| < |stack| && r.0 == stack[..|r.0|]
      && Top(r.0) <= level
      && (forall i | |r.0| <= i < |stack| :: stack[i] > level)
      && r.1 == Dedents(|stack| - |r.0|, line)
  {
    var top := Top(stack);
    if level > top then
      (stack + [level], [Token(Indent, line, 1)])
    else if level < top then
      var popped := PopAbove(stack, level);
      (popped, Dedents(|stack| - |popped|, line))
    else
      (stack, [])
  }

  // ---------------------------------------------------------------------
  // Skipping
  // ---------------------------------------------------------------------

  /** Moves to the end of the line (the newline itself is not consumed). */
  function SkipToLineEnd(src: string, c: Cursor): (d: Cursor)
    requires c.pos <= |src|
    ensures c.pos <= d.pos <= |src|
    ensures d.pos == |src| || src[d.pos] == '\n'
    decreases |src| - c.pos
  {
    if c.pos < |src| && src[c.pos] != '\n' then SkipToLineEnd(src, Advance(src, c)) else c
  }

  /** `skip_comment`: a `#` comment runs to the end of the line. */
  function SkipComment(src: string, c: Cursor): (d: Cursor)
    requires c.pos <= |src|
    ensures c.pos <= d.pos <= |src|
    ensures c.pos < |src| && src[c.pos] == '#' ==> d.pos > c.pos && (d.pos == |src| || src[d.pos] == '\n')
  {
    if c.pos < |src| && src[c.pos] == '#' then SkipToLineEnd(src, Advance(src, c)) else c
  }

  /** `skip_whitespace(skip_newlines=False)`: spaces, tabs and carriage returns. */
  function SkipSpaces(src: string, c: Cursor): (d: Cursor)
    requires c.pos <= |src|
    ensures c.pos <= d.pos <= |src|
    ensures d.pos < |src| ==> src[d.pos] !in " \t\r"
    decreases |src| - c.pos
  {
    if c.pos < |src| && src[c.pos] in " \t\r" then SkipSpaces(src, Advance(src, c)) else c
  }

  // ---------------------------------------------------------------------
  // Literals and identifiers
  // ---------------------------------------------------------------------

  function DotCount(s: string): nat
  {
    if |s| == 0 then 0 else (if s[0] == '.' then 1 else 0) + DotCount(s[1..])
  }

  function DigitValue(c: char): nat
  {
    if IsDigit(c) then (c as int) - ('0' as int) else 0
  }

  /** `int(text)` for a string of decimal digits. */
  function DigitsValue(s: string): nat
  {
    if |s| == 0 then 0 else DigitsValue(s[..|s| - 1]) * 10 + DigitValue(s[|s| - 1])
  }

  /** The digit run of `read_number`: digits, and one `.` while `hasDot` is false. */
  function NumberRun(src: string, c: Cursor, hasDot: bool): (d: Cursor)
    requires c.pos <= |src|
    ensures c.pos <= d.pos <= |src|
    ensures d.line == c.line && d.column == c.column + (d.pos - c.pos)
    ensures forall i | c.pos <= i < d.pos :: IsDigit(src[i]) || src[i] == '.'
    ensures hasDot ==> DotCount(src[c.pos..d.pos]) == 0
    ensures DotCount(src[c.pos..d.pos]) <= 1
    ensures d.pos < |src| ==>
      !IsDigit(src[d.pos]) && (src[d.pos] == '.' ==> hasDot || DotCount(src[c.pos..d.pos]) == 1)
    decreases |src| - c.pos
  {
    if c.pos < |src| && (IsDigit(src[c.pos]) || (src[c.pos] == '.' && !hasDot)) then
      var d := NumberRun(src, Advance(src, c), hasDot || src[c.pos] == '.');
      assert src[c.pos..d.pos][1..] == src[c.pos + 1..d.pos];
      d
    else
      c
  }

  /** `read_number`: a maximal digit run with at most one `.`; an integer
      when it has no dot, otherwise a float (kept as text). */
  function ReadNumber(src: string, c: Cursor): (r: (Token, Cursor))
    requires c.pos < |src| && IsDigit(src[c.pos])
    ensures c.pos < r.1.pos <= |src|
    ensures var text := src[c.pos..r.1.pos];
      && r.1.line == c.line
      && (forall i | 0 <= i < |text| :: IsDigit(text[i]) || text[i] == '.')
      && DotCount(text) <= 1
      && (r.1.pos < |src| ==> !IsDigit(src[r.1.pos]) && (src[r.1.pos] == '.' ==> DotCount(text) == 1))
      && r.0 == Token(Number(if DotCount(text) == 0 then IntLit(DigitsValue(text)) else FloatLit(text)), c.line, c.column)
  {
    var d := NumberRun(src, c, false);
    var text := src[c.pos..d.pos];
    (Token(Number(if DotCount(text) == 0 then IntLit(DigitsValue(text)) else FloatLit(text)), c.line, c.column), d)
  }

  /** Characters up to the next `"` (or the end of the source). */
  function StringRun(src: string, c: Cursor): (d: Cursor)
    requires c.pos <= |src|
    ensures c.pos <= d.pos <= |src|
    ensures forall i | c.pos <= i < d.pos :: src[i] != '"'
    ensures d.pos == |src| || src[d.pos] == '"'
    decreases |src| - c.pos
  {
    if c.pos < |src| && src[c.pos] != '"' then StringRun(src, Advance(src, c)) else c
  }

  /** `read_string`: the text up to the next `"`, with no escape
      processing; a missing closing quote is an error naming the line and
      column of the opening quote. */
  function ReadString(src: string, c: Cursor): (r: Result<(Token, Cursor), LexError>)
    requires c.pos < |src| && src[c.pos] == '"'
    ensures r.Ok? ==>
      && c.pos + 2 <= r.value.1.pos <= |src|
      && src[r.value.1.pos - 1] == '"'
      && (forall i | c.pos < i < r.value.1.pos - 1 :: src[i] != '"')
      && r.value.0 == Token(Str(src[c.pos + 1..r.value.1.pos - 1]), c.line, c.column)
    ensures r.Err? ==>
      && (forall i | c.pos < i < |src| :: src[i] != '"')
      && r.error == UnclosedString(c.line, c.column)
  {
    var start := Advance(src, c);
    var d := StringRun(src, start);
    if d.pos >= |src| then Err(UnclosedString(c.line, c.column))
    else Ok((Token(Str(src[start.pos..d.pos]), c.line, c.column), Advance(src, d)))
  }

  /** The identifier run of `read_identifier`. */
  function IdentRun(src: string, c: Cursor): (d: Cursor)
    requires c.pos <= |src|
    ensures c.pos <= d.pos <= |src|
    ensures d.line == c.line
    ensures forall i | c.pos <= i < d.pos :: IsIdentChar(src[i])
    ensures d.pos < |src| ==> !IsIdentChar(src[d.pos])
    decreases |src| - c.pos
  {
    if c.pos < |src| && IsIdentChar(src[c.pos]) then IdentRun(src, Advance(src, c)) else c
  }

  /** `read_identifier`: a maximal run of letters, digits, `_` and operator
      characters; reserved words become their keyword kinds. */
  function ReadIdentifier(src: string, c: Cursor): (r: (Token, Cursor))
    requires c.pos < |src| && IsIdentChar(src[c.pos])
    ensures c.pos < r.1.pos <= |src|
    ensures var word := src[c.pos..r.1.pos];
      && r.1.line == c.line
      && (forall i | 0 <= i < |word| :: IsIdentChar(word[i]))
      && (r.1.pos < |src| ==> !IsIdentChar(src[r.1.pos]))
      && r.0.line == c.line && r.0.column == c.column
      && (KeywordKind(word).Some? ==> r.0.kind == KeywordKind(word).value)
      && (KeywordKind(word).None? ==> r.0.kind == Ident(word))
  {
    var d := IdentRun(src, c);
    var word := src[c.pos..d.pos];
    var kind := match KeywordKind(word) case Some(k) => k case None => Ident(word);
    (Token(kind, c.line, c.column), d)
  }

  // ---------------------------------------------------------------------
  // The token stream
  // ---------------------------------------------------------------------

  predicate NoEof(ts: seq<Token>)
  {
    forall i | 0 <= i < |ts| :: ts[i].kind != Eof
  }

  /** Every IDENTIFIER token spells a non-reserved word. */
  predicate IdentsNotKeywords(ts: seq<Token>)
  {
    forall i | 0 <= i < |ts| :: ts[i].kind.Ident? ==> KeywordKind(ts[i].kind.name).None?
  }

  /** What holds of the tokens and the stack between two steps of `tokenize`. */
  predicate StreamInv(st: LexState)
  {
    && ValidStack(st.stack)
    && NoAdjacentNewlines(st.tokens)
    && NoEof(st.tokens)
    && IdentsNotKeywords(st.tokens)
    && Count(st.tokens, Indent) == Count(st.tokens, Dedent) + |st.stack| - 1
  }

  predicate Inv(src: string, st: LexState)
  {
    st.cur.pos <= |src| && StreamInv(st)
  }

  /** A complete token stream: exactly one EOF, at the end; no two
      adjacent NEWLINEs; INDENTs and DEDENTs balance; identifiers are
      never reserved words. */
  predicate WellFormedStream(ts: seq<Token>)
  {
    && |ts| > 0
    && ts[|ts| - 1].kind == Eof
    && NoEof(ts[..|ts| - 1])
    && NoAdjacentNewlines(ts)
    && Count(ts, Indent) == Count(ts, Dedent)
    && IdentsNotKeywords(ts)
  }

  lemma CountSnoc(ts: seq<Token>, t: Token, k: Kind)
    ensures Count(ts + [t], k) == Count(ts, k) + (if t.kind == k then 1 else 0)
  {
    assert (ts + [t])[..|ts|] == ts;
  }

  /** Appending one token that is neither INDENT, DEDENT nor EOF, and that
      is a NEWLINE only when the stream does not already end in one. */
  /** `StreamInv` depends only on the tokens and the stack. */
  lemma StreamInvFrame(st: LexState, st': LexState)
    requires StreamInv(st) && st'.tokens == st.tokens && st'.stack == st.stack
    ensures StreamInv(st')
  {
  }

  lemma PushPreserves(st: LexState, t: Token, st': LexState)
    requires StreamInv(st) && st'.tokens == st.tokens + [t] && st'.stack == st.stack
    requires t.kind != Indent && t.kind != Dedent && t.kind != Eof
    requires t.kind.Ident? ==> KeywordKind(t.kind.name).None?
    requires t.kind == Newline ==> |st.tokens| == 0 || st.tokens[|st.tokens| - 1].kind != Newline
    ensures StreamInv(st')
  {
    CountSnoc(st.tokens, t, Indent);
    CountSnoc(st.tokens, t, Dedent);
  }

  lemma DedentsCount(n: nat, line: int)
    ensures Count(Dedents(n, line), Dedent) == n
    ensures Count(Dedents(n, line), Indent) == 0
  {
    if n > 0 {
      DedentsCount(n - 1, line);
      assert Dedents(n, line) == Dedents(n - 1, line) + [Token(Dedent, line, 1)];
      CountSnoc(Dedents(n - 1, line), Token(Dedent, line, 1), Dedent);
      CountSnoc(Dedents(n - 1, line), Token(Dedent, line, 1), Indent);
    }
  }

  /** Appending only INDENT/DEDENT tokens keeps NEWLINEs apart and adds
      neither EOF nor an identifier. */
  lemma AppendLayout(a: seq<Token>, b: seq<Token>)
    requires NoAdjacentNewlines(a) && NoEof(a) && IdentsNotKeywords(a)
    requires forall i | 0 <= i < |b| :: b[i].kind == Indent || b[i].kind == Dedent
    ensures NoAdjacentNewlines(a + b) && NoEof(a + b) && IdentsNotKeywords(a + b)
  {
    var ab := a + b;
    forall i | 0 <= i < |ab|
      ensures ab[i].kind != Eof
      ensures i < |a| ==> ab[i] == a[i]
      ensures i >= |a| ==> ab[i].kind != Newline && !ab[i].kind.Ident?
    {
      if i >= |a| {
        assert ab[i] == b[i - |a|];
      }
    }
  }

  lemma IndentationPreserves(st: LexState, level: nat, line: int)
    requires StreamInv(st)
    ensures var (stack', layout) := HandleIndentation(st.stack, level, line);
      StreamInv(st.(tokens := st.tokens + layout, stack := stack'))
  {
    var (stack', layout) := HandleIndentation(st.stack, level, line);
    CountAppend(st.tokens, layout, Indent);
    CountAppend(st.tokens, layout, Dedent);
    if level > Top(st.stack) {
      CountSnoc([], Token(Indent, line, 1), Indent);
      CountSnoc([], Token(Indent, line, 1), Dedent);
      assert [] + [Token(Indent, line, 1)] == layout;
    } else if level < Top(st.stack) {
      DedentsCount(|st.stack| - |stack'|, line);
    }
    AppendLayout(st.tokens, layout);
  }

  lemma FinishWellFormed(st: LexState)
    requires StreamInv(st)
    ensures WellFormedStream(st.tokens + Dedents(|st.stack| - 1, st.cur.line) + [Token(Eof, st.cur.line, st.cur.column)])
  {
    var closing := Dedents(|st.stack| - 1, st.cur.line);
    var body := st.tokens + closing;
    var eof := Token(Eof, st.cur.line, st.cur.column);
    DedentsCount(|st.stack| - 1, st.cur.line);
    CountAppend(st.tokens, closing, Indent);
    CountAppend(st.tokens, closing, Dedent);
    CountSnoc(body, eof, Indent);
    CountSnoc(body, eof, Dedent);
    AppendLayout(st.tokens, closing);
    var r := body + [eof];
    assert r[..|r| - 1] == body;
    assert NoAdjacentNewlines(r) by {
      forall i | 0 <= i < |r| - 1 ensures !(r[i].kind == Newline && r[i + 1].kind == Newline) {
        assert r[i] == body[i];
      }
    }
    assert IdentsNotKeywords(r) by {
      forall i | 0 <= i < |r| ensures r[i].kind.Ident? ==> KeywordKind(r[i].kind.name).None? {
        if i < |body| { assert r[i] == body[i]; }
      }
    }
  }

  /** End of input: one DEDENT per level left above the bottom, then EOF. */
  function Finish(st: LexState): (r: seq<Token>)
    requires StreamInv(st)
    ensures WellFormedStream(r)
    ensures r == st.tokens + Dedents(|st.stack| - 1, st.cur.line) + [Token(Eof, st.cur.line, st.cur.column)]
  {
    FinishWellFormed(st);
    st.tokens + Dedents(|st.stack| - 1, st.cur.line) + [Token(Eof, st.cur.line, st.cur.column)]
  }

  /** One pass of the `tokenize` loop from the top: the line-start part
      (indentation, blank and comment-only lines), then `Body`. */
  function Scan(src: string, st: LexState): (r: Result<seq<Token>, LexError>)
    requires Inv(src, st)
    ensures r.Ok? ==> WellFormedStream(r.value)
    decreases |src| - st.cur.pos, 1
  {
    if st.cur.pos >= |src| then Ok(Finish(st))
    else if st.atLineStart then
      var (c, level) := MeasureIndent(src, st.cur, 0);
      if c.pos >= |src| then Ok(Finish(st.(cur := c)))
      else if src[c.pos] == '\n' then
        // blank line: no tokens, stack unchanged
        Scan(src, st.(cur := Advance(src, c)))
      else if src[c.pos] == '#' then
        // comment-only line: no tokens, stack unchanged
        Scan(src, st.(cur := SkipComment(src, c)))
      else
        var (stack', layout) := HandleIndentation(st.stack, level, c.line);
        IndentationPreserves(st, level, c.line);
        Body(src, LexState(c, st.tokens + layout, stack', false))
    else
      Body(src, st)
  }

  /** What one character-dispatch step of the `tokenize` loop produces:
      at most one token, the cursor after it, and whether the next pass
      starts a new line. */
  datatype Lexeme = Lexeme(token: Option<Token>, next: Cursor, lineStart: bool)

  /** A token that may be appended to a stream whose last token is (or
      is not) a NEWLINE without breaking `StreamInv`. */
  predicate Appendable(t: Token, afterNewline: bool)
  {
    && t.kind != Indent && t.kind != Dedent && t.kind != Eof
    && (t.kind.Ident? ==> KeywordKind(t.kind.name).None?)
    && (t.kind == Newline ==> !afterNewline)
  }

  /** The character dispatch of the `tokenize` loop, at a character that is
      not a space, tab or carriage return. */
  function ReadLexeme(src: string, c: Cursor, afterNewline: bool): (r: Result<Lexeme, LexError>)
    requires c.pos < |src|
    ensures r.Ok? ==> c.pos < r.value.next.pos <= |src|
    ensures r.Ok? && r.value.token.Some? ==> Appendable(r.value.token.value, afterNewline)
  {
    var ch := src[c.pos];
    if ch == '#' then
      Ok(Lexeme(None, SkipComment(src, c), false))
    else if ch == '\n' then
      // consecutive NEWLINEs collapse into one
      Ok(Lexeme(if afterNewline then None else Some(Token(Newline, c.line, c.column)), Advance(src, c), true))
    else if IsDigit(ch) then
      var (t, d) := ReadNumber(src, c);
      Ok(Lexeme(Some(t), d, false))
    else if ch == '"' then
      var p :- ReadString(src, c);
      Ok(Lexeme(Some(p.0), p.1, false))
    else if ch == '=' && PeekNext(src, c) != Some('=') then
      Ok(Lexeme(Some(Token(Equals, c.line, c.column)), Advance(src, c), false))
    else if IsAlpha(ch) || ch == '_' || IsOperatorChar(ch) then
      if ch == '=' && PeekNext(src, c) == Some('=') then
        Ok(Lexeme(Some(Token(Ident("=="), c.line, c.column)), Advance(src, Advance(src, c)), false))
      else if (ch == '<' || ch == '>') && PeekNext(src, c) == Some('=') then
        Ok(Lexeme(Some(Token(Ident([ch, '=']), c.line, c.column)), Advance(src, Advance(src, c)), false))
      else
        var (t, d) := ReadIdentifier(src, c);
        Ok(Lexeme(Some(t), d, false))
    else
      // unknown character: skipped silently
      Ok(Lexeme(None, Advance(src, c), false))
  }

  predicate EndsInNewline(ts: seq<Token>)
  {
    |ts| > 0 && ts[|ts| - 1].kind == Newline
  }

  /** The rest of one pass of the `tokenize` loop: skip spaces, then
      dispatch on the current character. */
  function Body(src: string, st: LexState): (r: Result<seq<Token>, LexError>)
    requires Inv(src, st)
    ensures r.Ok? ==> WellFormedStream(r.value)
    decreases |src| - st.cur.pos, 0
  {
    var c := SkipSpaces(src, st.cur);
    if c.pos >= |src| then Ok(Finish(st.(cur := c)))
    else
      var lx :- ReadLexeme(src, c, EndsInNewline(st.tokens));
      Scan(src, Consume(src, st, lx))
  }

  /** The state after a lexeme: its token (if any) appended, the cursor
      moved past it, the indentation stack untouched. */
  function Consume(src: string, st: LexState, lx: Lexeme): (st': LexState)
    requires Inv(src, st) && lx.next.pos <= |src|
    requires lx.token.Some? ==> Appendable(lx.token.value, EndsInNewline(st.tokens))
    ensures Inv(src, st') && st'.cur == lx.next && st'.stack == st.stack
    ensures lx.token.None? ==> st'.tokens == st.tokens
    ensures lx.token.Some? ==> st'.tokens == st.tokens + [lx.token.value]
  {
    match lx.token
    case None =>
      var st' := LexState(lx.next, st.tokens, st.stack, lx.lineStart);
      StreamInvFrame(st, st');
      st'
    case Some(t) =>
      var st' := LexState(lx.next, st.tokens + [t], st.stack, lx.lineStart);
      PushPreserves(st, t, st');
      st'
  }

  /** The initial lexer state: line 1, column 1, indentation stack `[0]`. */
  function InitialState(): LexState
  {
    LexState(Cursor(0, 1, 1), [], [0], true)
  }

  /** `Lexer(source).tokenize()`. */
  function Tokenize(src: string): (r: Result<seq<Token>, LexError>)
    ensures r.Ok? ==> WellFormedStream(r.value)
  {
    Scan(src, InitialState())
  }
}
