/** The SQL text quizdom prints, and how the engine reads it back: string literals with a
    doubled quote (section 5.3 of ISO/IEC 9075-2) and MySQL's backslash escapes. */
module SqlText {
  import opened Wrappers
  import opened Chunking

  function EscapedChar(c: char): string {
    if c == '\'' then "''" else if c == '\\' then "\\\\" else [c]
  }

  function Escaped(s: string): string {
    if s == "" then "" else EscapedChar(s[0]) + Escaped(s[1..])
  }

  function Quoted(s: string): string { "'" + Escaped(s) + "'" }

  lemma Assoc<T>(a: seq<T>, b: seq<T>, c: seq<T>)
    ensures a + b + c == a + (b + c)
  {
  }

  lemma EscapedCons(c: char, s: string)
    ensures Escaped([c] + s) == EscapedChar(c) + Escaped(s)
  {
    assert ([c] + s)[1..] == s;
  }

  lemma {:induction false} EscapedAppend(s: string, c: char)
    ensures Escaped(s + [c]) == Escaped(s) + EscapedChar(c)
    decreases |s|
  {
    if s == "" {
      assert s + [c] == [c] + "";
      EscapedCons(c, "");
    } else {
      var d, t := s[0], s[1..];
      assert s == [d] + t && s + [c] == [d] + (t + [c]);
      EscapedCons(d, t);
      EscapedCons(d, t + [c]);
      EscapedAppend(t, c);
    }
  }

  method SqlQuote(text: string) returns (quoted: string)
    ensures quoted == Quoted(text)
  {
    quoted := "'";
    for i := 0 to |text|
      invariant quoted == "'" + Escaped(text[..i])
    {
      EscapedAppend(text[..i], text[i]);
      assert text[..i + 1] == text[..i] + [text[i]];
      match text[i]
      case '\'' => quoted := quoted + "''";
      case '\\' => quoted := quoted + "\\\\";
      case _ => quoted := quoted + [text[i]];
    }
    assert text[..|text|] == text;
    quoted := quoted + "'";
  }

  // ---- The engine's reading ----

  // What a backslash followed by `c` stands for.
  function Unescaped(c: char): string {
    match c
    case 'n' => "\n"
    case 't' => "\t"
    case 'r' => "\r"
    case '0' => "\0"
    case 'b' => [8 as char]
    case 'Z' => [26 as char]
    case '%' => "\\%"
    case '_' => "\\_"
    case _ => [c]
  }

  // Reads from just after an opening quote: the literal's value, and what follows it.
  function Body(text: string): Option<(string, string)> {
    if text == "" then None
    else if text[0] == '\'' then
      if |text| > 1 && text[1] == '\'' then Prepend("'", Body(text[2..])) else Some(("", text[1..]))
    else if text[0] == '\\' then
      if |text| > 1 then Prepend(Unescaped(text[1]), Body(text[2..])) else None
    else Prepend([text[0]], Body(text[1..]))
  }

  function Prepend(s: string, r: Option<(string, string)>): Option<(string, string)> {
    match r case None => None case Some(pair) => Some((s + pair.0, pair.1))
  }

  predicate NoQuoteNext(rest: string) { rest == "" || rest[0] != '\'' }

  // A printed literal is read back exactly, and what follows it is left alone.
  lemma {:induction false} QuotedIsRead(s: string, rest: string)
    requires NoQuoteNext(rest)
    ensures Body(Escaped(s) + "'" + rest) == Some((s, rest))
    decreases |s|
  {
    var text := Escaped(s) + "'" + rest;
    if s == "" {
      assert text == "'" + rest && text[1..] == rest;
    } else {
      QuotedIsRead(s[1..], rest);
      var more := Escaped(s[1..]) + "'" + rest;
      assert text == EscapedChar(s[0]) + more;
      assert s == [s[0]] + s[1..];
      if s[0] == '\'' || s[0] == '\\' {
        assert text[2..] == more;
      } else {
        assert text[1..] == more;
      }
    }
  }

  // ---- Statements ----

  // A printed statement alternates fixed text and literals, and ends in fixed text. Fixed
  // text holds no quote and no semicolon.
  datatype Field = Field(lead: string, value: string)

  datatype Template = Template(fields: seq<Field>, tail: string)

  datatype Token = Ch(c: char) | Str(value: string)

  function Print(fields: seq<Field>, tail: string): string {
    if fields == [] then tail else fields[0].lead + Quoted(fields[0].value) + Print(fields[1..], tail)
  }

  function Chars(s: string): seq<Token> {
    if s == "" then [] else [Ch(s[0])] + Chars(s[1..])
  }

  function Tokens(fields: seq<Field>, tail: string): seq<Token> {
    if fields == [] then Chars(tail)
    else Chars(fields[0].lead) + [Str(fields[0].value)] + Tokens(fields[1..], tail)
  }

  predicate PlainText(s: string) { s != "" && '\'' !in s && ';' !in s }

  predicate Plain(fields: seq<Field>, tail: string) {
    (tail == "" || PlainText(tail)) && forall k :: 0 <= k < |fields| ==> PlainText(fields[k].lead)
  }

  lemma {:induction false} BodyShorter(text: string)
    ensures Body(text).Some? ==> |Body(text).value.1| < |text|
    decreases |text|
  {
    if text != "" {
      if |text| > 1 { BodyShorter(text[2..]); }
      BodyShorter(text[1..]);
    }
  }

  // The engine's lexer, as far as literals go.
  function Lex(text: string): Option<seq<Token>>
    decreases |text|
  {
    if text == "" then Some([])
    else if text[0] == '\'' then
      match Body(text[1..])
      case None => None
      case Some(pair) =>
        BodyShorter(text[1..]);
        Then([Str(pair.0)], Lex(pair.1))
    else Then([Ch(text[0])], Lex(text[1..]))
  }

  function Then(a: seq<Token>, b: Option<seq<Token>>): Option<seq<Token>> {
    match b case None => None case Some(rest) => Some(a + rest)
  }

  lemma ThenThen(a: seq<Token>, b: seq<Token>, r: Option<seq<Token>>)
    ensures Then(a, Then(b, r)) == Then(a + b, r)
    ensures Then([], r) == r
  {
    if r.Some? { assert [] + r.value == r.value; }
    if r.Some? { assert a + (b + r.value) == a + b + r.value; }
  }

  predicate Unquoted(s: string) { '\'' !in s }

  lemma {:induction false} LexPlain(s: string, rest: string)
    requires Unquoted(s)
    ensures Lex(s + rest) == Then(Chars(s), Lex(rest))
  {
    if s == "" {
      assert s + rest == rest;
      ThenThen([], [], Lex(rest));
    } else {
      LexPlain(s[1..], rest);
      assert (s + rest)[1..] == s[1..] + rest;
      ThenThen([Ch(s[0])], Chars(s[1..]), Lex(rest));
    }
  }

  lemma LexQuoted(v: string, rest: string)
    requires NoQuoteNext(rest)
    ensures Lex(Quoted(v) + rest) == Then([Str(v)], Lex(rest))
  {
    QuotedIsRead(v, rest);
    assert (Quoted(v) + rest)[1..] == Escaped(v) + "'" + rest;
  }

  lemma LexTail(tail: string, rest: string)
    requires (tail == "" || PlainText(tail)) && NoQuoteNext(rest)
    ensures Lex(tail + rest) == Then(Chars(tail), Lex(rest)) && NoQuoteNext(tail + rest)
  {
    LexPlain(tail, rest);
    if tail == "" { assert tail + rest == rest; } else { assert tail[0] in tail; }
  }

  lemma LexField(f: Field, more: string)
    requires PlainText(f.lead) && NoQuoteNext(more)
    ensures Lex(f.lead + (Quoted(f.value) + more)) == Then(Chars(f.lead) + [Str(f.value)], Lex(more))
    ensures NoQuoteNext(f.lead + (Quoted(f.value) + more))
  {
    assert f.lead[0] in f.lead;
    LexPlain(f.lead, Quoted(f.value) + more);
    LexQuoted(f.value, more);
    ThenThen(Chars(f.lead), [Str(f.value)], Lex(more));
  }

  lemma PrintedOne(fields: seq<Field>, tail: string, rest: string)
    requires fields != []
    ensures
      var f := fields[0];
      && Print(fields, tail) + rest == f.lead + (Quoted(f.value) + (Print(fields[1..], tail) + rest))
      && Tokens(fields, tail) == Chars(f.lead) + [Str(f.value)] + Tokens(fields[1..], tail)
  {
  }

  // Whatever the values hold, the engine sees the fixed text and the values that were printed.
  lemma {:induction false} LexPrinted(fields: seq<Field>, tail: string, rest: string)
    requires Plain(fields, tail) && NoQuoteNext(rest)
    ensures Lex(Print(fields, tail) + rest) == Then(Tokens(fields, tail), Lex(rest))
    ensures NoQuoteNext(Print(fields, tail) + rest)
  {
    if fields == [] {
      LexTail(tail, rest);
    } else {
      var f, more := fields[0], Print(fields[1..], tail);
      LexPrinted(fields[1..], tail, rest);
      PrintedOne(fields, tail, rest);
      LexField(f, more + rest);
      ThenThen(Chars(f.lead) + [Str(f.value)], Tokens(fields[1..], tail), Lex(rest));
    }
  }

  // The engine's statements: what stands between semicolons, each without leading newlines.
  function Statements(tokens: seq<Token>): seq<seq<Token>> {
    SplitAt(tokens, [])
  }

  function SplitAt(tokens: seq<Token>, open: seq<Token>): seq<seq<Token>> {
    if tokens == [] then (if open == [] then [] else [open])
    else if tokens[0] == Ch(';') then [open] + SplitAt(tokens[1..], [])
    else if tokens[0] == Ch('\n') && open == [] then SplitAt(tokens[1..], [])
    else SplitAt(tokens[1..], open + [tokens[0]])
  }

  predicate NoStop(tokens: seq<Token>) {
    forall k :: 0 <= k < |tokens| ==> tokens[k] != Ch(';')
  }

  lemma {:induction false} SplitOne(tokens: seq<Token>, open: seq<Token>, rest: seq<Token>)
    requires NoStop(tokens)
    requires open != [] || (tokens != [] && tokens[0] != Ch('\n'))
    ensures SplitAt(tokens + [Ch(';')] + rest, open) == [open + tokens] + SplitAt(rest, [])
    decreases |tokens|
  {
    var all := tokens + [Ch(';')] + rest;
    if tokens == [] {
      assert all[0] == Ch(';') && all[1..] == rest;
      assert open + tokens == open;
    } else {
      assert all[1..] == tokens[1..] + [Ch(';')] + rest;
      SplitOne(tokens[1..], open + [tokens[0]], rest);
      assert open + [tokens[0]] + tokens[1..] == open + tokens;
    }
  }

  lemma {:induction false} CharsNoStop(s: string)
    requires ';' !in s
    ensures NoStop(Chars(s)) && |Chars(s)| == |s| && (s != "" ==> Chars(s)[0] == Ch(s[0]))
  {
    if s != "" { CharsNoStop(s[1..]); }
  }

  lemma {:induction false} TokensNoStop(fields: seq<Field>, tail: string)
    requires Plain(fields, tail)
    ensures NoStop(Tokens(fields, tail))
  {
    if fields == [] {
      CharsNoStop(tail);
    } else {
      assert PlainText(fields[0].lead);
      CharsNoStop(fields[0].lead);
      TokensNoStop(fields[1..], tail);
    }
  }

  // A printable statement: it starts with a word.
  predicate IsStatement(t: Template) {
    Plain(t.fields, t.tail) && t.fields != [] && t.fields[0].lead[0] != '\n'
  }

  function StatementTokens(t: Template): seq<Token> { Tokens(t.fields, t.tail) }

  function StatementText(t: Template): string { Print(t.fields, t.tail) + ";" }

  function Texts(stmts: seq<Template>): (r: seq<string>)
    ensures |r| == |stmts|
  {
    if stmts == [] then [] else [StatementText(stmts[0])] + Texts(stmts[1..])
  }

  function TokenLists(stmts: seq<Template>): seq<seq<Token>> {
    if stmts == [] then [] else [StatementTokens(stmts[0])] + TokenLists(stmts[1..])
  }

  // A batch starts with its first statement; the rest, if there is one, follows on a new line.
  lemma BatchSplits(stmts: seq<Template>)
    requires stmts != []
    ensures
      var rest := if |stmts| == 1 then "" else "\n" + Join(Texts(stmts[1..]), "\n");
      Join(Texts(stmts), "\n") == Print(stmts[0].fields, stmts[0].tail) + (";" + rest)
  {
    var first, tail := Print(stmts[0].fields, stmts[0].tail), Join(Texts(stmts[1..]), "\n");
    assert Texts(stmts)[1..] == Texts(stmts[1..]);
    if |stmts| == 1 {
      assert ";" + "" == ";";
    } else {
      Assoc(first + ";", "\n", tail);
      Assoc(first, ";", "\n" + tail);
    }
  }

  lemma NewlineFirst(rest: string)
    ensures Lex("\n" + rest) == Then([Ch('\n')], Lex(rest)) && Lex(";" + rest) == Then([Ch(';')], Lex(rest))
  {
    assert ("\n" + rest)[1..] == rest && (";" + rest)[1..] == rest;
  }

  lemma NewlineIsSkipped(tokens: seq<Token>)
    ensures Statements([Ch('\n')] + tokens) == Statements(tokens)
  {
    assert ([Ch('\n')] + tokens)[1..] == tokens;
  }

  // A batch joined with newlines reaches the engine as exactly its statements, in order, each
  // with its values intact, whatever quotes, semicolons or newlines those values hold.
  lemma {:induction false} BatchIsItsStatements(stmts: seq<Template>)
    requires forall k :: 0 <= k < |stmts| ==> IsStatement(stmts[k])
    ensures
      var lexed := Lex(Join(Texts(stmts), "\n"));
      lexed.Some? && Statements(lexed.value) == TokenLists(stmts)
  {
    if stmts != [] {
      var first, tail := stmts[0], Join(Texts(stmts[1..]), "\n");
      assert IsStatement(first);
      BatchIsItsStatements(stmts[1..]);
      BatchSplits(stmts);
      NewlineFirst(tail);
      NewlineIsSkipped(Lex(tail).value);
      var rest := if |stmts| == 1 then "" else "\n" + tail;
      NewlineFirst(rest);
      LexPrinted(first.fields, first.tail, ";" + rest);
      FirstStatement(first, Lex(rest).value);
    }
  }

  lemma FirstStatement(t: Template, rest: seq<Token>)
    requires IsStatement(t)
    ensures Statements(StatementTokens(t) + ([Ch(';')] + rest)) == [StatementTokens(t)] + Statements(rest)
  {
    TokensNoStop(t.fields, t.tail);
    CharsNoStop(t.fields[0].lead);
    SplitOne(StatementTokens(t), [], rest);
    assert StatementTokens(t) + [Ch(';')] + rest == StatementTokens(t) + ([Ch(';')] + rest);
    assert [] + StatementTokens(t) == StatementTokens(t);
  }

  // ---- Id lists ----

  function QuotedAll(ids: seq<string>): (r: seq<string>)
    ensures |r| == |ids|
  {
    if ids == [] then [] else [Quoted(ids[0])] + QuotedAll(ids[1..])
  }

  function SqlIdList(ids: seq<string>): string { Join(QuotedAll(ids), ", ") }

  // Reads literals separated by `, `; stops at the first text that continues no list.
  function IdList(text: string): Option<(seq<string>, string)>
    decreases |text|
  {
    if text == "" || text[0] != '\'' then None
    else
      match Body(text[1..])
      case None => None
      case Some(pair) =>
        BodyShorter(text[1..]);
        if ", " <= pair.1 then
          match IdList(pair.1[2..])
          case None => None
          case Some(more) => Some(([pair.0] + more.0, more.1))
        else Some(([pair.0], pair.1))
  }

  lemma SqlIdListCons(ids: seq<string>)
    requires ids != []
    ensures SqlIdList(ids) == if |ids| == 1 then Quoted(ids[0]) else Quoted(ids[0]) + ", " + SqlIdList(ids[1..])
  {
    assert QuotedAll(ids)[1..] == QuotedAll(ids[1..]);
  }

  // A literal taken off a list, and what the list goes on with.
  function Onward(id: string, after: string): Option<(seq<string>, string)> {
    if ", " <= after then
      match IdList(after[2..])
      case None => None
      case Some(more) => Some(([id] + more.0, more.1))
    else Some(([id], after))
  }

  lemma IdListStep(id: string, after: string)
    requires NoQuoteNext(after)
    ensures IdList(Quoted(id) + after) == Onward(id, after)
  {
    var text := Quoted(id) + after;
    QuotedIsRead(id, after);
    assert text[0] == '\'' && text[1..] == Escaped(id) + "'" + after;
    BodyShorter(text[1..]);
  }

  lemma Regroup(a: string, b: string, c: string, d: string)
    ensures a + b + c + d == a + (b + (c + d)) && (b + (c + d))[|b|..] == c + d
  {
  }

  lemma {:induction false} IdListIsRead(ids: seq<string>, rest: string)
    requires ids != [] && NoQuoteNext(rest) && !(", " <= rest)
    ensures IdList(SqlIdList(ids) + rest) == Some((ids, rest))
  {
    SqlIdListCons(ids);
    if |ids| == 1 {
      IdListStep(ids[0], rest);
      assert ids == [ids[0]];
    } else {
      var tail, list := ids[1..], SqlIdList(ids[1..]);
      Regroup(Quoted(ids[0]), ", ", list, rest);
      IdListIsRead(tail, rest);
      IdListStep(ids[0], ", " + (list + rest));
      assert ids == [ids[0]] + tail;
    }
  }
}
