/** The engine's grammar for what quizdom sends it, over tokens: `INSERT [IGNORE] INTO t (..)
    VALUES (..) [ON DUPLICATE KEY UPDATE ..]`, `UPDATE t SET .. WHERE ..`, `CALL p(..)` and
    `SELECT f(..) AS name`. It knows keywords only: tables, columns and procedures are read out
    of the text. Reading and printing by this grammar undo each other. */
module SqlGrammar {
  import opened Wrappers
  import opened Text
  import opened SqlText

  datatype Value = Literal(text: string) | Number(n: nat)

  datatype When = When(key: string, value: Value)

  datatype Expr = Is(value: Value) | Case(column: string, whens: seq<When>)

  datatype Assign = Assign(column: string, expr: Expr)

  datatype Where = Equals(column: string, value: Value) | In(column: string, values: seq<Value>)

  datatype Sql =
    | Insert(ignore: bool, table: string, columns: seq<string>, values: seq<Value>, updates: seq<Assign>)
    | Update(table: string, sets: seq<Assign>, filter: Where)
    | Call(procedure: string, arguments: seq<Value>)
    | Select(fn: string, arguments: seq<Value>, name: string)

  // ---- Reading ----

  // What was read, and the tokens after it.
  datatype Reading<+T> = Stuck | Read(value: T, rest: seq<Token>)

  predicate IsNameChar(c: char) { 'a' <= c <= 'z' || 'A' <= c <= 'Z' || c == '_' }

  predicate NameNext(tokens: seq<Token>) { tokens != [] && tokens[0].Ch? && IsNameChar(tokens[0].c) }

  predicate DigitNext(tokens: seq<Token>) { tokens != [] && tokens[0].Ch? && IsDigit(tokens[0].c) }

  const ON_DUPLICATE := " ON DUPLICATE KEY UPDATE "

  // The keyword or punctuation `s`, and nothing else.
  function Expect(tokens: seq<Token>, s: string): (r: Option<seq<Token>>)
    ensures r.Some? ==> |r.value| == |tokens| - |s|
  {
    if |s| <= |tokens| && tokens[..|s|] == Chars(s) then Some(tokens[|s|..]) else None
  }

  // A name, as long as it goes.
  function Name(tokens: seq<Token>): (r: (string, seq<Token>))
    ensures |r.0| + |r.1| == |tokens|
  {
    if NameNext(tokens) then var (name, rest) := Name(tokens[1..]); ([tokens[0].c] + name, rest)
    else ("", tokens)
  }

  function Digits(tokens: seq<Token>): (r: (string, seq<Token>))
    ensures |r.0| + |r.1| == |tokens| && AllDigits(r.0)
  {
    if DigitNext(tokens) then var (digits, rest) := Digits(tokens[1..]); ([tokens[0].c] + digits, rest)
    else ("", tokens)
  }

  function ReadName(tokens: seq<Token>): (r: Reading<string>)
    ensures r.Read? ==> |r.rest| < |tokens|
  {
    var (name, rest) := Name(tokens);
    if name == "" then Stuck else Read(name, rest)
  }

  function ReadValue(tokens: seq<Token>): (r: Reading<Value>)
    ensures r.Read? ==> |r.rest| < |tokens|
  {
    if tokens != [] && tokens[0].Str? then Read(Literal(tokens[0].value), tokens[1..])
    else
      var (digits, rest) := Digits(tokens);
      if digits == "" then Stuck else Read(Number(DecimalValue(digits)), rest)
  }

  // Names separated by commas.
  function ReadNames(tokens: seq<Token>): (r: Reading<seq<string>>)
    ensures r.Read? ==> |r.rest| < |tokens|
    decreases |tokens|
  {
    match ReadName(tokens)
    case Stuck => Stuck
    case Read(name, rest) =>
      match Expect(rest, ", ")
      case None => Read([name], rest)
      case Some(more) =>
        match ReadNames(more)
        case Stuck => Stuck
        case Read(names, after) => Read([name] + names, after)
  }

  function ReadValues(tokens: seq<Token>): (r: Reading<seq<Value>>)
    ensures r.Read? ==> |r.rest| < |tokens|
    decreases |tokens|
  {
    match ReadValue(tokens)
    case Stuck => Stuck
    case Read(v, rest) =>
      match Expect(rest, ", ")
      case None => Read([v], rest)
      case Some(more) =>
        match ReadValues(more)
        case Stuck => Stuck
        case Read(values, after) => Read([v] + values, after)
  }

  function ReadWhen(tokens: seq<Token>): (r: Reading<When>)
    ensures r.Read? ==> |r.rest| < |tokens|
  {
    if tokens == [] || !tokens[0].Str? then Stuck
    else
      match Expect(tokens[1..], " THEN ")
      case None => Stuck
      case Some(more) =>
        match ReadValue(more)
        case Stuck => Stuck
        case Read(v, rest) => Read(When(tokens[0].value, v), rest)
  }

  // `WHEN .. THEN ..`, as many as there are.
  function ReadWhens(tokens: seq<Token>): (r: Reading<seq<When>>)
    ensures r.Read? ==> |r.rest| <= |tokens|
    decreases |tokens|
  {
    match Expect(tokens, " WHEN ")
    case None => Read([], tokens)
    case Some(more) =>
      match ReadWhen(more)
      case Stuck => Stuck
      case Read(w, rest) =>
        match ReadWhens(rest)
        case Stuck => Stuck
        case Read(whens, after) => Read([w] + whens, after)
  }

  function ReadCase(tokens: seq<Token>): (r: Reading<Expr>)
    ensures r.Read? ==> |r.rest| < |tokens|
  {
    match ReadName(tokens)
    case Stuck => Stuck
    case Read(column, rest) =>
      match ReadWhens(rest)
      case Stuck => Stuck
      case Read(whens, more) =>
        match Expect(more, " END")
        case None => Stuck
        case Some(after) => Read(Case(column, whens), after)
  }

  function ReadExpr(tokens: seq<Token>): (r: Reading<Expr>)
    ensures r.Read? ==> |r.rest| < |tokens|
  {
    match Expect(tokens, "CASE ")
    case Some(more) => ReadCase(more)
    case None =>
      match ReadValue(tokens)
      case Stuck => Stuck
      case Read(v, rest) => Read(Is(v), rest)
  }

  function ReadAssign(tokens: seq<Token>): (r: Reading<Assign>)
    ensures r.Read? ==> |r.rest| < |tokens|
  {
    match ReadName(tokens)
    case Stuck => Stuck
    case Read(column, rest) =>
      match Expect(rest, " = ")
      case None => Stuck
      case Some(more) =>
        match ReadExpr(more)
        case Stuck => Stuck
        case Read(e, after) => Read(Assign(column, e), after)
  }

  // Assignments separated by commas.
  function ReadAssigns(tokens: seq<Token>): (r: Reading<seq<Assign>>)
    ensures r.Read? ==> |r.rest| < |tokens|
    decreases |tokens|
  {
    match ReadAssign(tokens)
    case Stuck => Stuck
    case Read(a, rest) =>
      match Expect(rest, ", ")
      case None => Read([a], rest)
      case Some(more) =>
        match ReadAssigns(more)
        case Stuck => Stuck
        case Read(assigns, after) => Read([a] + assigns, after)
  }

  // `(..)`, from after the parenthesis.
  function ReadClosed(tokens: seq<Token>): Reading<seq<Value>> {
    match ReadValues(tokens)
    case Stuck => Stuck
    case Read(values, rest) =>
      match Expect(rest, ")")
      case None => Stuck
      case Some(after) => Read(values, after)
  }

  function ReadWhere(tokens: seq<Token>): Reading<Where> {
    match ReadName(tokens)
    case Stuck => Stuck
    case Read(column, rest) =>
      match Expect(rest, " = ")
      case Some(more) =>
        (match ReadValue(more)
         case Stuck => Stuck
         case Read(v, after) => Read(Equals(column, v), after))
      case None =>
        match Expect(rest, " IN (")
        case None => Stuck
        case Some(more) =>
          match ReadClosed(more)
          case Stuck => Stuck
          case Read(values, after) => Read(In(column, values), after)
  }

  // `t SET .. WHERE ..`, to the end of the statement.
  function ReadUpdate(tokens: seq<Token>): Option<Sql> {
    match ReadName(tokens)
    case Stuck => None
    case Read(table, rest) =>
      match Expect(rest, " SET ")
      case None => None
      case Some(more) =>
        match ReadAssigns(more)
        case Stuck => None
        case Read(sets, then0) =>
          match Expect(then0, " WHERE ")
          case None => None
          case Some(last) =>
            match ReadWhere(last)
            case Stuck => None
            case Read(filter, end) => if end == [] then Some(Update(table, sets, filter)) else None
  }

  // `ON DUPLICATE KEY UPDATE ..`, or nothing.
  function ReadClause(tokens: seq<Token>): Option<seq<Assign>> {
    if tokens == [] then Some([])
    else
      match Expect(tokens, ON_DUPLICATE)
      case None => None
      case Some(more) =>
        match ReadAssigns(more)
        case Stuck => None
        case Read(updates, last) => if last == [] then Some(updates) else None
  }

  // `VALUES (..)` and the clause, from after the parenthesis.
  function ReadRow(ignore: bool, table: string, columns: seq<string>, tokens: seq<Token>): Option<Sql> {
    match ReadClosed(tokens)
    case Stuck => None
    case Read(values, end) =>
      match ReadClause(end)
      case None => None
      case Some(updates) => Some(Insert(ignore, table, columns, values, updates))
  }

  function ReadInto(ignore: bool, tokens: seq<Token>): Option<Sql> {
    match ReadName(tokens)
    case Stuck => None
    case Read(table, rest) =>
      match Expect(rest, " (")
      case None => None
      case Some(more) =>
        match ReadNames(more)
        case Stuck => None
        case Read(columns, then0) =>
          match Expect(then0, ") VALUES (")
          case None => None
          case Some(last) => ReadRow(ignore, table, columns, last)
  }

  function ReadInsert(tokens: seq<Token>): Option<Sql> {
    match Expect(tokens, "IGNORE INTO ")
    case Some(more) => ReadInto(true, more)
    case None =>
      match Expect(tokens, "INTO ")
      case Some(more) => ReadInto(false, more)
      case None => None
  }

  // `f(..)`.
  function ReadApplied(tokens: seq<Token>): Reading<(string, seq<Value>)> {
    match ReadName(tokens)
    case Stuck => Stuck
    case Read(name, rest) =>
      match Expect(rest, "(")
      case None => Stuck
      case Some(more) =>
        match ReadClosed(more)
        case Stuck => Stuck
        case Read(values, after) => Read((name, values), after)
  }

  function ReadCall(tokens: seq<Token>): Option<Sql> {
    match ReadApplied(tokens)
    case Stuck => None
    case Read(applied, end) => if end == [] then Some(Call(applied.0, applied.1)) else None
  }

  function ReadSelect(tokens: seq<Token>): Option<Sql> {
    match ReadApplied(tokens)
    case Stuck => None
    case Read(applied, rest) =>
      match Expect(rest, " AS ")
      case None => None
      case Some(more) =>
        match ReadName(more)
        case Stuck => None
        case Read(name, end) => if end == [] then Some(Select(applied.0, applied.1, name)) else None
  }

  function ReadSql(tokens: seq<Token>): Option<Sql> {
    var insert, update := Expect(tokens, "INSERT "), Expect(tokens, "UPDATE ");
    var call, select := Expect(tokens, "CALL "), Expect(tokens, "SELECT ");
    if insert.Some? then ReadInsert(insert.value)
    else if update.Some? then ReadUpdate(update.value)
    else if call.Some? then ReadCall(call.value)
    else if select.Some? then ReadSelect(select.value)
    else None
  }

  // ---- Printing ----

  // What is printed, piece by piece: text, and literals.
  datatype Stream = End | T(text: string, next: Stream) | L(value: string, next: Stream)

  function Flat(s: Stream): seq<Token> {
    match s
    case End => []
    case T(text, next) => Chars(text) + Flat(next)
    case L(value, next) => [Str(value)] + Flat(next)
  }

  function PutValue(v: Value, after: Stream): Stream {
    match v
    case Literal(text) => L(text, after)
    case Number(n) => T(Decimal(n), after)
  }

  function PutNames(names: seq<string>, after: Stream): Stream
    requires names != []
  {
    if |names| == 1 then T(names[0], after) else T(names[0], T(", ", PutNames(names[1..], after)))
  }

  function PutValues(values: seq<Value>, after: Stream): Stream
    requires values != []
  {
    if |values| == 1 then PutValue(values[0], after) else PutValue(values[0], T(", ", PutValues(values[1..], after)))
  }

  function PutWhens(whens: seq<When>, after: Stream): Stream {
    if whens == [] then after
    else T(" WHEN ", L(whens[0].key, T(" THEN ", PutValue(whens[0].value, PutWhens(whens[1..], after)))))
  }

  function PutExpr(e: Expr, after: Stream): Stream {
    match e
    case Is(v) => PutValue(v, after)
    case Case(column, whens) => T("CASE ", T(column, PutWhens(whens, T(" END", after))))
  }

  function PutAssign(a: Assign, after: Stream): Stream {
    T(a.column, T(" = ", PutExpr(a.expr, after)))
  }

  function PutAssigns(assigns: seq<Assign>, after: Stream): Stream
    requires assigns != []
  {
    if |assigns| == 1 then PutAssign(assigns[0], after)
    else PutAssign(assigns[0], T(", ", PutAssigns(assigns[1..], after)))
  }

  function PutWhere(w: Where): Stream
    requires w.In? ==> w.values != []
  {
    match w
    case Equals(column, v) => T(column, T(" = ", PutValue(v, End)))
    case In(column, values) => T(column, T(" IN (", PutValues(values, T(")", End))))
  }

  predicate IsName(s: string) { s != "" && forall k :: 0 <= k < |s| ==> IsNameChar(s[k]) }

  predicate GoodExpr(e: Expr) { e.Case? ==> IsName(e.column) }

  predicate GoodAssigns(assigns: seq<Assign>) {
    forall k :: 0 <= k < |assigns| ==> IsName(assigns[k].column) && GoodExpr(assigns[k].expr)
  }

  // A statement the grammar can print.
  predicate Good(sql: Sql) {
    match sql
    case Insert(_, table, columns, values, updates) =>
      && IsName(table) && columns != [] && values != []
      && (forall k :: 0 <= k < |columns| ==> IsName(columns[k])) && GoodAssigns(updates)
    case Update(table, sets, filter) =>
      IsName(table) && sets != [] && GoodAssigns(sets) && IsName(filter.column) && (filter.In? ==> filter.values != [])
    case Call(procedure, arguments) => IsName(procedure) && arguments != []
    case Select(fn, arguments, name) => IsName(fn) && arguments != [] && IsName(name)
  }

  function PutClause(updates: seq<Assign>): Stream {
    if updates == [] then End else T(ON_DUPLICATE, PutAssigns(updates, End))
  }

  function PutRow(values: seq<Value>, updates: seq<Assign>): Stream
    requires values != []
  {
    PutValues(values, T(")", PutClause(updates)))
  }

  function PutSql(sql: Sql): Stream
    requires Good(sql)
  {
    match sql
    case Insert(ignore, table, columns, values, updates) =>
      T("INSERT ", T(if ignore then "IGNORE INTO " else "INTO ",
          T(table, T(" (", PutNames(columns, T(") VALUES (", PutRow(values, updates)))))))
    case Update(table, sets, filter) =>
      T("UPDATE ", T(table, T(" SET ", PutAssigns(sets, T(" WHERE ", PutWhere(filter))))))
    case Call(procedure, arguments) =>
      T("CALL ", T(procedure, T("(", PutValues(arguments, T(")", End)))))
    case Select(fn, arguments, name) =>
      T("SELECT ", T(fn, T("(", PutValues(arguments, T(")", T(" AS ", T(name, End)))))))
  }

  // ---- The round trip ----

  lemma {:induction false} CharsAre(s: string)
    ensures |Chars(s)| == |s| && forall k :: 0 <= k < |s| ==> Chars(s)[k] == Ch(s[k])
  {
    if s != "" { CharsAre(s[1..]); }
  }

  lemma TextFirst(s: string, after: Stream)
    requires s != ""
    ensures Flat(T(s, after)) != [] && Flat(T(s, after))[0] == Ch(s[0])
    ensures Flat(T(s, after))[1..] == Flat(T(s[1..], after))
  {
    CharsAre(s);
  }

  lemma ExpectIsRead(s: string, after: Stream)
    ensures Expect(Flat(T(s, after)), s) == Some(Flat(after))
  {
    CharsAre(s);
  }

  // Text that differs at some place is not what is expected.
  lemma ExpectFails(s: string, after: Stream, other: string, k: nat)
    requires k < |s| && k < |other| && s[k] != other[k]
    ensures Expect(Flat(T(s, after)), other) == None
  {
    CharsAre(s);
    CharsAre(other);
    var tokens := Flat(T(s, after));
    assert tokens[k] == Ch(s[k]) && Chars(other)[k] == Ch(other[k]);
    assert |other| <= |tokens| ==> tokens[..|other|][k] == tokens[k];
  }

  lemma LiteralIsNot(v: string, after: Stream, other: string)
    requires other != ""
    ensures Expect(Flat(L(v, after)), other) == None
  {
    CharsAre(other);
    var tokens := Flat(L(v, after));
    assert tokens[0] == Str(v) && Chars(other)[0] == Ch(other[0]);
    assert |other| <= |tokens| ==> tokens[..|other|][0] == tokens[0];
  }

  lemma {:induction false} NameIsRead(s: string, after: Stream)
    requires forall k :: 0 <= k < |s| ==> IsNameChar(s[k])
    requires !NameNext(Flat(after))
    ensures Name(Flat(T(s, after))) == (s, Flat(after))
  {
    if s == "" {
      assert Flat(T(s, after)) == Flat(after);
    } else {
      TextFirst(s, after);
      NameIsRead(s[1..], after);
      assert s == [s[0]] + s[1..];
    }
  }

  lemma {:induction false} DigitsAreRead(s: string, after: Stream)
    requires AllDigits(s) && !DigitNext(Flat(after))
    ensures Digits(Flat(T(s, after))) == (s, Flat(after))
  {
    if s == "" {
      assert Flat(T(s, after)) == Flat(after);
    } else {
      TextFirst(s, after);
      DigitsAreRead(s[1..], after);
      assert s == [s[0]] + s[1..];
    }
  }

  lemma ReadsName(s: string, after: Stream)
    requires IsName(s) && !NameNext(Flat(after))
    ensures ReadName(Flat(T(s, after))) == Read(s, Flat(after))
  {
    NameIsRead(s, after);
  }

  lemma ReadsValue(v: Value, after: Stream)
    requires !DigitNext(Flat(after))
    ensures ReadValue(Flat(PutValue(v, after))) == Read(v, Flat(after))
  {
    match v
    case Literal(text) =>
    case Number(n) =>
      DecimalRoundTrip(n);
      TextFirst(Decimal(n), after);
      DigitsAreRead(Decimal(n), after);
  }

  // Punctuation and keywords start with neither a name nor a digit, unless they say so.
  lemma Starts(s: string, after: Stream)
    requires s != ""
    ensures NameNext(Flat(T(s, after))) <==> IsNameChar(s[0])
    ensures DigitNext(Flat(T(s, after))) <==> IsDigit(s[0])
  {
    TextFirst(s, after);
  }

  // What may follow a list: nothing that would carry it on.
  predicate Ends(after: Stream) {
    !DigitNext(Flat(after)) && !NameNext(Flat(after)) && Expect(Flat(after), ", ") == None
  }

  lemma {:induction false} ReadsNames(names: seq<string>, after: Stream)
    requires names != [] && Ends(after)
    requires forall k :: 0 <= k < |names| ==> IsName(names[k])
    ensures ReadNames(Flat(PutNames(names, after))) == Read(names, Flat(after))
    decreases |names|
  {
    if |names| == 1 {
      ReadsName(names[0], after);
      assert names == [names[0]];
    } else {
      var more := PutNames(names[1..], after);
      Starts(", ", more);
      ReadsName(names[0], T(", ", more));
      ExpectIsRead(", ", more);
      ReadsNames(names[1..], after);
      assert names == [names[0]] + names[1..];
    }
  }

  lemma {:induction false} ReadsValues(values: seq<Value>, after: Stream)
    requires values != [] && Ends(after)
    ensures ReadValues(Flat(PutValues(values, after))) == Read(values, Flat(after))
    decreases |values|
  {
    if |values| == 1 {
      ReadsValue(values[0], after);
      assert values == [values[0]];
    } else {
      var more := PutValues(values[1..], after);
      Starts(", ", more);
      ReadsValue(values[0], T(", ", more));
      ExpectIsRead(", ", more);
      ReadsValues(values[1..], after);
      assert values == [values[0]] + values[1..];
    }
  }

  lemma ClosingEnds(s: string, after: Stream)
    requires s != "" && s[0] in {')', ' '}
    ensures Ends(T(s, after))
  {
    Starts(s, after);
    ExpectFails(s, after, ", ", 0);
  }

  lemma NothingEnds()
    ensures Ends(End)
  {
  }

  lemma ReadsClosed(values: seq<Value>, after: Stream)
    requires values != []
    ensures ReadClosed(Flat(PutValues(values, T(")", after)))) == Read(values, Flat(after))
  {
    ClosingEnds(")", after);
    ReadsValues(values, T(")", after));
    ExpectIsRead(")", after);
  }

  lemma ReadsWhen(w: When, after: Stream)
    requires !DigitNext(Flat(after))
    ensures ReadWhen(Flat(L(w.key, T(" THEN ", PutValue(w.value, after))))) == Read(w, Flat(after))
  {
    var tokens := Flat(L(w.key, T(" THEN ", PutValue(w.value, after))));
    assert tokens[1..] == Flat(T(" THEN ", PutValue(w.value, after)));
    ExpectIsRead(" THEN ", PutValue(w.value, after));
    ReadsValue(w.value, after);
  }

  lemma WhensStart(whens: seq<When>, after: Stream)
    requires !DigitNext(Flat(after)) && !NameNext(Flat(after))
    ensures !DigitNext(Flat(PutWhens(whens, after))) && !NameNext(Flat(PutWhens(whens, after)))
  {
    if whens != [] {
      Starts(" WHEN ", L(whens[0].key, T(" THEN ", PutValue(whens[0].value, PutWhens(whens[1..], after)))));
    }
  }

  lemma {:induction false} ReadsWhens(whens: seq<When>, after: Stream)
    requires !DigitNext(Flat(after)) && !NameNext(Flat(after)) && Expect(Flat(after), " WHEN ") == None
    ensures ReadWhens(Flat(PutWhens(whens, after))) == Read(whens, Flat(after))
    decreases |whens|
  {
    if whens != [] {
      var w, more := whens[0], PutWhens(whens[1..], after);
      var body := L(w.key, T(" THEN ", PutValue(w.value, more)));
      ReadsWhens(whens[1..], after);
      WhensStart(whens[1..], after);
      ExpectIsRead(" WHEN ", body);
      ReadsWhen(w, more);
      assert whens == [w] + whens[1..];
    }
  }

  lemma ReadsCase(column: string, whens: seq<When>, after: Stream)
    requires IsName(column)
    ensures ReadCase(Flat(T(column, PutWhens(whens, T(" END", after))))) == Read(Case(column, whens), Flat(after))
  {
    var end := T(" END", after);
    Starts(" END", after);
    ExpectFails(" END", after, " WHEN ", 1);
    WhensStart(whens, end);
    ReadsName(column, PutWhens(whens, end));
    ReadsWhens(whens, end);
    ExpectIsRead(" END", after);
  }

  lemma ReadsExpr(e: Expr, after: Stream)
    requires GoodExpr(e) && !DigitNext(Flat(after))
    ensures ReadExpr(Flat(PutExpr(e, after))) == Read(e, Flat(after))
  {
    match e
    case Case(column, whens) =>
      ExpectIsRead("CASE ", T(column, PutWhens(whens, T(" END", after))));
      ReadsCase(column, whens, after);
    case Is(v) =>
      NotCase(v, after);
      ReadsValue(v, after);
  }

  lemma NotCase(v: Value, after: Stream)
    ensures Expect(Flat(PutValue(v, after)), "CASE ") == None
  {
    match v
    case Literal(text) => LiteralIsNot(text, after, "CASE ");
    case Number(n) =>
      DecimalRoundTrip(n);
      assert IsDigit(Decimal(n)[0]);
      ExpectFails(Decimal(n), after, "CASE ", 0);
  }

  lemma ReadsAssign(a: Assign, after: Stream)
    requires IsName(a.column) && GoodExpr(a.expr) && !DigitNext(Flat(after))
    ensures ReadAssign(Flat(PutAssign(a, after))) == Read(a, Flat(after))
  {
    var more := PutExpr(a.expr, after);
    Starts(" = ", more);
    ReadsName(a.column, T(" = ", more));
    ExpectIsRead(" = ", more);
    ReadsExpr(a.expr, after);
  }

  // The readers, step by step, over what each part reads as.
  lemma AssignsStep(tokens: seq<Token>, a: Assign, rest: seq<Token>, more: seq<Token>, assigns: seq<Assign>, after: seq<Token>)
    requires ReadAssign(tokens) == Read(a, rest) && Expect(rest, ", ") == Some(more)
    requires ReadAssigns(more) == Read(assigns, after)
    ensures ReadAssigns(tokens) == Read([a] + assigns, after)
  {
  }

  lemma AssignsLast(tokens: seq<Token>, a: Assign, rest: seq<Token>)
    requires ReadAssign(tokens) == Read(a, rest) && Expect(rest, ", ") == None
    ensures ReadAssigns(tokens) == Read([a], rest)
  {
  }

  lemma ReadsMoreAssigns(a: Assign, more: Stream, assigns: seq<Assign>, after: seq<Token>)
    requires IsName(a.column) && GoodExpr(a.expr) && ReadAssigns(Flat(more)) == Read(assigns, after)
    ensures ReadAssigns(Flat(PutAssign(a, T(", ", more)))) == Read([a] + assigns, after)
  {
    Starts(", ", more);
    ReadsAssign(a, T(", ", more));
    ExpectIsRead(", ", more);
    AssignsStep(Flat(PutAssign(a, T(", ", more))), a, Flat(T(", ", more)), Flat(more), assigns, after);
  }

  lemma ReadsLastAssign(a: Assign, after: Stream)
    requires IsName(a.column) && GoodExpr(a.expr) && Ends(after)
    ensures ReadAssigns(Flat(PutAssign(a, after))) == Read([a], Flat(after))
  {
    ReadsAssign(a, after);
    AssignsLast(Flat(PutAssign(a, after)), a, Flat(after));
  }

  lemma GoodTail(assigns: seq<Assign>)
    requires assigns != [] && GoodAssigns(assigns)
    ensures GoodAssigns(assigns[1..]) && IsName(assigns[0].column) && GoodExpr(assigns[0].expr)
  {
    assert forall k :: 0 <= k < |assigns[1..]| ==> assigns[1..][k] == assigns[k + 1];
  }

  lemma AssignsAre(assigns: seq<Assign>, after: Stream)
    requires assigns != []
    ensures assigns == [assigns[0]] + assigns[1..]
    ensures |assigns| == 1 ==> PutAssigns(assigns, after) == PutAssign(assigns[0], after) && assigns == [assigns[0]]
    ensures |assigns| > 1 ==> PutAssigns(assigns, after) == PutAssign(assigns[0], T(", ", PutAssigns(assigns[1..], after)))
  {
  }

  lemma {:induction false} ReadsAssigns(assigns: seq<Assign>, after: Stream)
    requires assigns != [] && GoodAssigns(assigns) && Ends(after)
    ensures ReadAssigns(Flat(PutAssigns(assigns, after))) == Read(assigns, Flat(after))
    decreases |assigns|
  {
    GoodTail(assigns);
    AssignsAre(assigns, after);
    var a, rest := assigns[0], assigns[1..];
    if |assigns| == 1 {
      ReadsLastAssign(a, after);
    } else {
      ReadsAssigns(rest, after);
      ReadsMoreAssigns(a, PutAssigns(rest, after), rest, Flat(after));
    }
  }

  lemma ReadsWhere(w: Where)
    requires IsName(w.column) && (w.In? ==> w.values != [])
    ensures ReadWhere(Flat(PutWhere(w))) == Read(w, [])
  {
    match w
    case Equals(column, v) =>
      Starts(" = ", PutValue(v, End));
      ReadsName(column, T(" = ", PutValue(v, End)));
      ExpectIsRead(" = ", PutValue(v, End));
      ReadsValue(v, End);
    case In(column, values) =>
      var more := PutValues(values, T(")", End));
      Starts(" IN (", more);
      ReadsName(column, T(" IN (", more));
      ExpectFails(" IN (", more, " = ", 1);
      ExpectIsRead(" IN (", more);
      ReadsClosed(values, End);
  }

  lemma UpdateSteps(tokens: seq<Token>, table: string, rest: seq<Token>, more: seq<Token>, sets: seq<Assign>,
                    where: seq<Token>, last: seq<Token>, filter: Where)
    requires ReadName(tokens) == Read(table, rest) && Expect(rest, " SET ") == Some(more)
    requires ReadAssigns(more) == Read(sets, where) && Expect(where, " WHERE ") == Some(last)
    requires ReadWhere(last) == Read(filter, [])
    ensures ReadUpdate(tokens) == Some(Update(table, sets, filter))
  {
  }

  lemma ReadsUpdate(table: string, sets: seq<Assign>, filter: Where)
    requires Good(Update(table, sets, filter))
    ensures ReadUpdate(Flat(T(table, T(" SET ", PutAssigns(sets, T(" WHERE ", PutWhere(filter)))))))
         == Some(Update(table, sets, filter))
  {
    var last := PutWhere(filter);
    var where := T(" WHERE ", last);
    var more := PutAssigns(sets, where);
    Starts(" SET ", more);
    ReadsName(table, T(" SET ", more));
    ExpectIsRead(" SET ", more);
    ClosingEnds(" WHERE ", last);
    ReadsAssigns(sets, where);
    ExpectIsRead(" WHERE ", last);
    ReadsWhere(filter);
    UpdateSteps(Flat(T(table, T(" SET ", more))), table, Flat(T(" SET ", more)), Flat(more), sets, Flat(where), Flat(last), filter);
  }

  lemma ReadsClause(updates: seq<Assign>)
    requires GoodAssigns(updates)
    ensures ReadClause(Flat(PutClause(updates))) == Some(updates)
  {
    if updates != [] {
      var more := PutAssigns(updates, End);
      TextFirst(ON_DUPLICATE, more);
      ExpectIsRead(ON_DUPLICATE, more);
      NothingEnds();
      ReadsAssigns(updates, End);
    }
  }

  lemma ReadsRow(ignore: bool, table: string, columns: seq<string>, values: seq<Value>, updates: seq<Assign>)
    requires values != [] && GoodAssigns(updates)
    ensures ReadRow(ignore, table, columns, Flat(PutRow(values, updates))) == Some(Insert(ignore, table, columns, values, updates))
  {
    ReadsClosed(values, PutClause(updates));
    ReadsClause(updates);
  }

  lemma IntoSteps(ignore: bool, tokens: seq<Token>, table: string, rest: seq<Token>, more: seq<Token>,
                  columns: seq<string>, closed: seq<Token>, last: seq<Token>)
    requires ReadName(tokens) == Read(table, rest) && Expect(rest, " (") == Some(more)
    requires ReadNames(more) == Read(columns, closed) && Expect(closed, ") VALUES (") == Some(last)
    ensures ReadInto(ignore, tokens) == ReadRow(ignore, table, columns, last)
  {
  }

  lemma ReadsInto(ignore: bool, table: string, columns: seq<string>, values: seq<Value>, updates: seq<Assign>)
    requires Good(Insert(ignore, table, columns, values, updates))
    ensures ReadInto(ignore, Flat(T(table, T(" (", PutNames(columns, T(") VALUES (", PutRow(values, updates)))))))
         == Some(Insert(ignore, table, columns, values, updates))
  {
    var last := PutRow(values, updates);
    var closed := T(") VALUES (", last);
    var more := PutNames(columns, closed);
    Starts(" (", more);
    ReadsName(table, T(" (", more));
    ExpectIsRead(" (", more);
    ClosingEnds(") VALUES (", last);
    ReadsNames(columns, closed);
    ExpectIsRead(") VALUES (", last);
    IntoSteps(ignore, Flat(T(table, T(" (", more))), table, Flat(T(" (", more)), Flat(more), columns, Flat(closed), Flat(last));
    ReadsRow(ignore, table, columns, values, updates);
  }

  lemma IgnoreSteps(into: Stream)
    ensures ReadInsert(Flat(T("IGNORE INTO ", into))) == ReadInto(true, Flat(into))
  {
    ExpectIsRead("IGNORE INTO ", into);
  }

  lemma InsertSteps(into: Stream)
    ensures ReadInsert(Flat(T("INTO ", into))) == ReadInto(false, Flat(into))
  {
    ExpectFails("INTO ", into, "IGNORE INTO ", 1);
    ExpectIsRead("INTO ", into);
  }

  lemma ReadsApplied(name: string, arguments: seq<Value>, after: Stream)
    requires IsName(name) && arguments != []
    ensures ReadApplied(Flat(T(name, T("(", PutValues(arguments, T(")", after)))))) == Read((name, arguments), Flat(after))
  {
    var more := PutValues(arguments, T(")", after));
    Starts("(", more);
    ReadsName(name, T("(", more));
    ExpectIsRead("(", more);
    ReadsClosed(arguments, after);
  }

  lemma ReadsSelect(fn: string, arguments: seq<Value>, name: string)
    requires Good(Select(fn, arguments, name))
    ensures ReadSelect(Flat(T(fn, T("(", PutValues(arguments, T(")", T(" AS ", T(name, End))))))))
         == Some(Select(fn, arguments, name))
  {
    ReadsApplied(fn, arguments, T(" AS ", T(name, End)));
    ExpectIsRead(" AS ", T(name, End));
    ReadsName(name, End);
  }

  // The keyword a statement starts with is the one it is read by.
  lemma NotKeyword(keyword: string, after: Stream, other: string)
    requires keyword != "" && other != "" && keyword[0] != other[0]
    ensures Expect(Flat(T(keyword, after)), other) == None
  {
    ExpectFails(keyword, after, other, 0);
  }

  lemma DispatchInsert(after: Stream)
    ensures ReadSql(Flat(T("INSERT ", after))) == ReadInsert(Flat(after))
  {
    ExpectIsRead("INSERT ", after);
  }

  lemma DispatchUpdate(after: Stream)
    ensures ReadSql(Flat(T("UPDATE ", after))) == ReadUpdate(Flat(after))
  {
    NotKeyword("UPDATE ", after, "INSERT ");
    ExpectIsRead("UPDATE ", after);
  }

  lemma DispatchCall(after: Stream)
    ensures ReadSql(Flat(T("CALL ", after))) == ReadCall(Flat(after))
  {
    NotKeyword("CALL ", after, "INSERT ");
    NotKeyword("CALL ", after, "UPDATE ");
    ExpectIsRead("CALL ", after);
  }

  lemma DispatchSelect(after: Stream)
    ensures ReadSql(Flat(T("SELECT ", after))) == ReadSelect(Flat(after))
  {
    NotKeyword("SELECT ", after, "INSERT ");
    NotKeyword("SELECT ", after, "UPDATE ");
    NotKeyword("SELECT ", after, "CALL ");
    ExpectIsRead("SELECT ", after);
  }

  lemma ReadsCall(procedure: string, arguments: seq<Value>)
    requires Good(Call(procedure, arguments))
    ensures ReadCall(Flat(T(procedure, T("(", PutValues(arguments, T(")", End)))))) == Some(Call(procedure, arguments))
  {
    ReadsApplied(procedure, arguments, End);
  }

  // Every statement of the grammar, printed, is read back as itself.
  lemma SqlIsRead(sql: Sql)
    requires Good(sql)
    ensures ReadSql(Flat(PutSql(sql))) == Some(sql)
  {
    match sql
    case Insert(ignore, table, columns, values, updates) =>
      var into := T(table, T(" (", PutNames(columns, T(") VALUES (", PutRow(values, updates)))));
      DispatchInsert(T(if ignore then "IGNORE INTO " else "INTO ", into));
      if ignore { IgnoreSteps(into); } else { InsertSteps(into); }
      ReadsInto(ignore, table, columns, values, updates);
    case Update(table, sets, filter) =>
      DispatchUpdate(T(table, T(" SET ", PutAssigns(sets, T(" WHERE ", PutWhere(filter))))));
      ReadsUpdate(table, sets, filter);
    case Call(procedure, arguments) =>
      DispatchCall(T(procedure, T("(", PutValues(arguments, T(")", End)))));
      ReadsCall(procedure, arguments);
    case Select(fn, arguments, name) =>
      DispatchSelect(T(fn, T("(", PutValues(arguments, T(")", T(" AS ", T(name, End)))))));
      ReadsSelect(fn, arguments, name);
  }
}
