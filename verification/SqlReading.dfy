/** How the engine takes the printed statements: each is parsed by the grammar, and its tables,
    columns and values say what it does. Reading a text gives exactly what was printed. */
module SqlReading {
  import opened Wrappers
  import opened Text
  import opened Tables
  import opened Chunking
  import opened SqlText
  import opened SqlStatements
  import opened SqlGrammar

  // ---- What a parsed statement does ----

  datatype Command =
    | Write(statement: Statement)
    | Add(tables: seq<string>)
    | Hash(of: string, name: string)

  function NodeKindOf(name: string): Option<NodeKind> {
    if name == "question" then Some(Question)
    else if name == "term" then Some(Term)
    else if name == "belief" then Some(Belief)
    else None
  }

  function EdgeKindOf(name: string): Option<EdgeKind> {
    if name == "begets" then Some(Begets)
    else if name == "probes" then Some(Probes)
    else if name == "refines" then Some(Refines)
    else if name == "contradicts" then Some(Contradicts)
    else if name == "agrees" then Some(Agrees)
    else if name == "disagrees" then Some(Disagrees)
    else None
  }

  // The value a row gives a column, and the expression a list assigns it.
  function ValueOf(columns: seq<string>, values: seq<Value>, column: string): Option<Value> {
    if columns == [] || values == [] then None
    else if columns[0] == column then Some(values[0])
    else ValueOf(columns[1..], values[1..], column)
  }

  function TextOf(columns: seq<string>, values: seq<Value>, column: string): Option<string> {
    match ValueOf(columns, values, column)
    case Some(Literal(text)) => Some(text)
    case _ => None
  }

  function NumberOf(columns: seq<string>, values: seq<Value>, column: string): Option<nat> {
    match ValueOf(columns, values, column)
    case Some(Number(n)) => Some(n)
    case _ => None
  }

  function SetTo(sets: seq<Assign>, column: string): Option<Expr> {
    if sets == [] then None
    else if sets[0].column == column then Some(sets[0].expr)
    else SetTo(sets[1..], column)
  }

  // The row of `nodes` a column list and its values describe.
  function RowOf(columns: seq<string>, values: seq<Value>): Option<(string, Node)> {
    var id, kind := TextOf(columns, values, "id"), TextOf(columns, values, "kind");
    var title, body := TextOf(columns, values, "title"), TextOf(columns, values, "body");
    var tags, weight := TextOf(columns, values, "tags"), NumberOf(columns, values, "weight");
    if && |columns| == 6 && |values| == 6
       && id.Some? && kind.Some? && title.Some? && body.Some? && tags.Some? && weight.Some?
       && NodeKindOf(kind.value).Some?
    then Some((id.value, Node(NodeKindOf(kind.value).value, title.value, body.value, tags.value, weight.value)))
    else None
  }

  // Each column but the key is assigned the value its row has.
  predicate Refreshes(updates: seq<Assign>, columns: seq<string>, values: seq<Value>) {
    && |updates| == 5
    && RefreshesColumn(updates, columns, values, "kind") && RefreshesColumn(updates, columns, values, "title")
    && RefreshesColumn(updates, columns, values, "body") && RefreshesColumn(updates, columns, values, "tags")
    && RefreshesColumn(updates, columns, values, "weight")
  }

  predicate RefreshesColumn(updates: seq<Assign>, columns: seq<string>, values: seq<Value>, column: string) {
    && ValueOf(columns, values, column).Some?
    && SetTo(updates, column) == Some(Is(ValueOf(columns, values, column).value))
  }

  function NodeInsert(ignore: bool, columns: seq<string>, values: seq<Value>, updates: seq<Assign>): Option<Statement> {
    match RowOf(columns, values)
    case None => None
    case Some(row) =>
      if ignore then None
      else if updates == [] then Some(InsertNode(row.0, row.1))
      else if Refreshes(updates, columns, values) then Some(UpsertNode(row.0, row.1))
      else None
  }

  // `at` is the engine's clock, which fills `created_at`.
  function EdgeInsert(ignore: bool, columns: seq<string>, values: seq<Value>, at: nat): Option<Statement> {
    var from, to := TextOf(columns, values, "from_id"), TextOf(columns, values, "to_id");
    var kind := TextOf(columns, values, "kind");
    if && |columns| == 3 && |values| == 3
       && from.Some? && to.Some? && kind.Some? && EdgeKindOf(kind.value).Some?
    then
      var edge := Edge(from.value, to.value, EdgeKindOf(kind.value).value);
      Some(if ignore then InsertIgnoreEdge(edge, at) else InsertEdge(edge, at))
    else None
  }

  // The arm an id of the `IN` list has: its tags from one `CASE`, its weight from the other.
  function ArmOf(tags: When, weight: When, id: Value): Option<Arm> {
    if && tags.value.Literal? && weight.value.Number? && id.Literal?
       && tags.key == id.text && weight.key == id.text
    then Some(Arm(id.text, weight.value.n, tags.value.text))
    else None
  }

  function ArmsRead(tags: seq<When>, weights: seq<When>, ids: seq<Value>): Option<seq<Arm>> {
    if tags == [] && weights == [] && ids == [] then Some([])
    else if tags == [] || weights == [] || ids == [] then None
    else
      var first, rest := ArmOf(tags[0], weights[0], ids[0]), ArmsRead(tags[1..], weights[1..], ids[1..]);
      if first.Some? && rest.Some? then Some([first.value] + rest.value) else None
  }

  function NodeUpdate(sets: seq<Assign>, filter: Where): Option<Statement> {
    var tags, weight := SetTo(sets, "tags"), SetTo(sets, "weight");
    if |sets| != 2 || tags == None || weight == None || filter.column != "id" then None
    else
      match (tags.value, weight.value, filter)
      case (Is(Literal(t)), Is(Number(w)), Equals(_, Literal(id))) => Some(UpdateNode(id, w, t))
      case (Case(tagKey, ts), Case(weightKey, ws), In(_, ids)) =>
        (match ArmsRead(ts, ws, ids)
         case None => None
         case Some(arms) => if tagKey == "id" && weightKey == "id" then Some(CaseUpdate(arms)) else None)
      case _ => None
  }

  function TextsOf(values: seq<Value>): Option<seq<string>> {
    if values == [] then Some([])
    else
      match (values[0], TextsOf(values[1..]))
      case (Literal(text), Some(rest)) => Some([text] + rest)
      case _ => None
  }

  function CommandOf(sql: Sql, at: nat): Option<Command> {
    match sql
    case Insert(ignore, table, columns, values, updates) =>
      var s := if table == "nodes" then NodeInsert(ignore, columns, values, updates)
               else if table == "edges" && updates == [] then EdgeInsert(ignore, columns, values, at)
               else None;
      if s.Some? then Some(Write(s.value)) else None
    case Update(table, sets, filter) =>
      var s := if table == "nodes" then NodeUpdate(sets, filter) else None;
      if s.Some? then Some(Write(s.value)) else None
    case Call(procedure, arguments) =>
      var tables := TextsOf(arguments);
      if procedure == "DOLT_ADD" && tables.Some? then Some(Add(tables.value)) else None
    case Select(fn, arguments, name) =>
      if fn == "DOLT_HASHOF_DB" && |arguments| == 1 && arguments[0].Literal? then Some(Hash(arguments[0].text, name))
      else None
  }

  function Decode(tokens: seq<Token>, at: nat): Option<Command> {
    match ReadSql(tokens)
    case None => None
    case Some(sql) => CommandOf(sql, at)
  }

  // Statements quizdom sends while the engine's clock reads `at`.
  predicate Sent(s: Statement, at: nat) {
    && (s.CaseUpdate? ==> s.arms != [])
    && (s.InsertEdge? || s.InsertIgnoreEdge? ==> s.at == at)
  }

  // ---- What each printed statement parses as ----

  const NODE_COLUMNS := ["id", "kind", "title", "body", "tags", "weight"]
  const EDGE_COLUMNS := ["from_id", "to_id", "kind"]

  function RowValues(id: string, node: Node): seq<Value> {
    [Literal(id), Literal(NodeKindName(node.kind)), Literal(node.title), Literal(node.body), Literal(node.tags),
     Number(node.weight)]
  }

  function RowUpdates(node: Node): seq<Assign> {
    [Assign("kind", Is(Literal(NodeKindName(node.kind)))), Assign("title", Is(Literal(node.title))),
     Assign("body", Is(Literal(node.body))), Assign("tags", Is(Literal(node.tags))),
     Assign("weight", Is(Number(node.weight)))]
  }

  function EdgeValues(e: Edge): seq<Value> { [Literal(e.from), Literal(e.to), Literal(EdgeKindName(e.kind))] }

  function TagWhens(arms: seq<Arm>): (r: seq<When>)
    ensures |r| == |arms|
  {
    if arms == [] then [] else [When(arms[0].id, Literal(arms[0].tags))] + TagWhens(arms[1..])
  }

  function WeightWhens(arms: seq<Arm>): (r: seq<When>)
    ensures |r| == |arms|
  {
    if arms == [] then [] else [When(arms[0].id, Number(arms[0].weight))] + WeightWhens(arms[1..])
  }

  function IdValues(arms: seq<Arm>): (r: seq<Value>)
    ensures |r| == |arms|
  {
    if arms == [] then [] else [Literal(arms[0].id)] + IdValues(arms[1..])
  }

  function UpdateSql(id: string, weight: nat, tags: string): Sql {
    Update("nodes", [Assign("tags", Is(Literal(tags))), Assign("weight", Is(Number(weight)))], Equals("id", Literal(id)))
  }

  function SqlOf(s: Statement): Sql
    requires s.CaseUpdate? ==> s.arms != []
  {
    match s
    case InsertNode(id, node) => Insert(false, "nodes", NODE_COLUMNS, RowValues(id, node), [])
    case UpsertNode(id, node) => Insert(false, "nodes", NODE_COLUMNS, RowValues(id, node), RowUpdates(node))
    case InsertEdge(e, _) => Insert(false, "edges", EDGE_COLUMNS, EdgeValues(e), [])
    case InsertIgnoreEdge(e, _) => Insert(true, "edges", EDGE_COLUMNS, EdgeValues(e), [])
    case UpdateNode(id, weight, tags) => UpdateSql(id, weight, tags)
    case CaseUpdate(arms) =>
      Update("nodes", [Assign("tags", Case("id", TagWhens(arms))), Assign("weight", Case("id", WeightWhens(arms)))],
             In("id", IdValues(arms)))
  }

  lemma ColumnsAreNames()
    ensures IsName("id") && IsName("kind") && IsName("title") && IsName("body") && IsName("tags") && IsName("weight")
    ensures IsName("from_id") && IsName("to_id") && IsName("nodes") && IsName("edges")
  {
  }

  lemma SqlIsGood(s: Statement)
    requires s.CaseUpdate? ==> s.arms != []
    ensures Good(SqlOf(s))
  {
    ColumnsAreNames();
  }

  // ---- The text is the grammar's ----

  // Two streams that are the same tokens, cut differently.
  predicate Same(a: Stream, b: Stream) { Flat(a) == Flat(b) }

  lemma {:induction false} CharsConcat(a: string, b: string)
    ensures Chars(a + b) == Chars(a) + Chars(b)
  {
    if a == "" {
      assert a + b == b;
    } else {
      assert (a + b)[1..] == a[1..] + b;
      CharsConcat(a[1..], b);
      Assoc([Ch(a[0])], Chars(a[1..]), Chars(b));
    }
  }

  lemma Same2(a: string, b: string, x: Stream, y: Stream)
    requires Same(x, y)
    ensures Same(T(a + b, x), T(a, T(b, y)))
  {
    CharsConcat(a, b);
    Assoc(Chars(a), Chars(b), Flat(x));
  }

  lemma Same3(a: string, b: string, c: string, x: Stream, y: Stream)
    requires Same(x, y)
    ensures Same(T(a + (b + c), x), T(a, T(b, T(c, y))))
  {
    Same2(b, c, x, y);
    Same2(a, b + c, x, x);
  }

  lemma Same4(a: string, b: string, c: string, d: string, x: Stream, y: Stream)
    requires Same(x, y)
    ensures Same(T(a + (b + (c + d)), x), T(a, T(b, T(c, T(d, y)))))
  {
    Same3(b, c, d, x, y);
    Same2(a, b + (c + d), x, x);
  }

  lemma Same5(a: string, b: string, c: string, d: string, e: string, x: Stream, y: Stream)
    requires Same(x, y)
    ensures Same(T(a + (b + (c + (d + e))), x), T(a, T(b, T(c, T(d, T(e, y))))))
  {
    Same4(b, c, d, e, x, y);
    Same2(a, b + (c + (d + e)), x, x);
  }

  // A literal, and the separator after it.
  lemma SameNext(v: string, sep: string, x: Stream, y: Stream)
    requires Same(x, y)
    ensures Same(L(v, T(sep, x)), L(v, T(sep, y)))
  {
  }

  // Text around a number.
  lemma SameNumber(before: string, n: nat, behind: string, x: Stream, y: Stream)
    requires Same(x, y)
    ensures Same(T(before + Decimal(n) + behind, x), T(before, PutValue(Number(n), T(behind, y))))
    ensures Same(T(before + Decimal(n), x), T(before, PutValue(Number(n), y)))
  {
    Same2(before + Decimal(n), behind, x, y);
    Same2(before, Decimal(n), T(behind, y), T(behind, y));
    Same2(before, Decimal(n), x, y);
  }

  // The fields of a template, and then what follows.
  function Through(fields: seq<Field>, after: Stream): Stream {
    if fields == [] then after else T(fields[0].lead, L(fields[0].value, Through(fields[1..], after)))
  }

  lemma {:induction false} TokensAreThrough(fields: seq<Field>, tail: string)
    ensures Tokens(fields, tail) == Flat(Through(fields, T(tail, End)))
  {
    if fields == [] {
      assert Flat(T(tail, End)) == Chars(tail);
    } else {
      TokensAreThrough(fields[1..], tail);
      Assoc(Chars(fields[0].lead), [Str(fields[0].value)], Tokens(fields[1..], tail));
    }
  }

  // A template whose stream is the grammar's, however cut, prints the statement.
  lemma PrintsSql(t: Template, sql: Sql, x: Stream)
    requires Good(sql) && PutSql(sql) == x
    requires Same(Through(t.fields, T(t.tail, End)), x)
    ensures StatementTokens(t) == Flat(PutSql(sql))
  {
    TokensAreThrough(t.fields, t.tail);
  }

  lemma ThroughCons(f: Field, rest: seq<Field>, after: Stream)
    ensures Through([f] + rest, after) == T(f.lead, L(f.value, Through(rest, after)))
  {
    assert ([f] + rest)[1..] == rest;
  }

  lemma {:induction false} ThroughConcat(a: seq<Field>, b: seq<Field>, after: Stream)
    ensures Through(a + b, after) == Through(a, Through(b, after))
  {
    if a == [] {
      assert a + b == b;
    } else {
      ThroughConcat(a[1..], b, after);
      assert a + b == [a[0]] + (a[1..] + b);
      ThroughCons(a[0], a[1..] + b, after);
    }
  }

  lemma {:induction false} ThroughSame(fields: seq<Field>, x: Stream, y: Stream)
    requires Same(x, y)
    ensures Same(Through(fields, x), Through(fields, y))
  {
    if fields != [] { ThroughSame(fields[1..], x, y); }
  }

  lemma {:induction false} NamesText(names: seq<string>, x: Stream, y: Stream)
    requires names != [] && Same(x, y)
    ensures Same(T(Join(names, ", "), x), PutNames(names, y))
  {
    if |names| > 1 {
      var more := Join(names[1..], ", ");
      NamesText(names[1..], x, y);
      Same3(names[0], ", ", more, x, x);
      Assoc(names[0], ", ", more);
      assert Same(T(", ", T(more, x)), T(", ", PutNames(names[1..], y)));
    }
  }

  lemma JoinNext(name: string, rest: seq<string>)
    requires rest != []
    ensures Join([name] + rest, ", ") == name + (", " + Join(rest, ", "))
  {
    assert ([name] + rest)[1..] == rest;
    Assoc(name, ", ", Join(rest, ", "));
  }

  lemma LastColumns()
    ensures Join(["body", "tags", "weight"], ", ") == "body, tags, weight"
  {
    JoinNext("tags", ["weight"]);
    assert ["tags", "weight"] == ["tags"] + ["weight"];
    JoinNext("body", ["tags", "weight"]);
    assert ["body", "tags", "weight"] == ["body"] + ["tags", "weight"];
  }

  lemma FirstColumns(rest: seq<string>)
    requires rest != []
    ensures Join(["id"] + (["kind"] + (["title"] + rest)), ", ") == "id, kind, title, " + Join(rest, ", ")
  {
    JoinNext("title", rest);
    JoinNext("kind", ["title"] + rest);
    JoinNext("id", ["kind"] + (["title"] + rest));
    FirstColumnsText(Join(rest, ", "));
  }

  lemma FirstColumnsText(rest: string)
    ensures "id" + (", " + ("kind" + (", " + ("title" + (", " + rest))))) == "id, kind, title, " + rest
  {
    assert "id, kind, title, " == "id" + (", " + ("kind" + (", " + ("title" + ", "))));
    Assoc("title", ", ", rest);
    Assoc(", ", "title" + ", ", rest);
    Assoc("kind", ", " + ("title" + ", "), rest);
    Assoc(", ", "kind" + (", " + ("title" + ", ")), rest);
    Assoc("id", ", " + ("kind" + (", " + ("title" + ", "))), rest);
  }

  lemma NodeColumnList()
    ensures Join(NODE_COLUMNS, ", ") == NODE_COLUMN_LIST
  {
    LastColumns();
    FirstColumns(["body", "tags", "weight"]);
    assert NODE_COLUMNS == ["id"] + (["kind"] + (["title"] + ["body", "tags", "weight"]));
  }

  lemma EdgeColumnList()
    ensures Join(EDGE_COLUMNS, ", ") == EDGE_COLUMN_LIST
  {
    JoinNext("to_id", ["kind"]);
    assert ["to_id", "kind"] == ["to_id"] + ["kind"];
    JoinNext("from_id", ["to_id", "kind"]);
    assert EDGE_COLUMNS == ["from_id"] + ["to_id", "kind"];
    assert "from_id" + (", " + ("to_id" + (", " + "kind"))) == "from_id, to_id, kind";
  }

  // The fixed texts, in the grammar's parts.

  lemma UpdateTagsParts()
    ensures UPDATE_TAGS == "UPDATE " + ("nodes" + (" SET " + ("tags" + " = ")))
  {
  }

  lemma CaseIdsParts()
    ensures CASE_IDS == " END" + (" WHERE " + ("id" + " IN ("))
  {
  }

  lemma CaseIdParts()
    ensures "CASE id" == "CASE " + "id"
  {
  }

  lemma InsertNodeParts()
    ensures "INSERT INTO nodes (" == "INSERT " + ("INTO " + ("nodes" + " ("))
  {
  }

  lemma InsertEdgeParts()
    ensures "INSERT INTO edges (" == "INSERT " + ("INTO " + ("edges" + " ("))
  {
  }

  lemma IgnoreEdgeParts()
    ensures "INSERT IGNORE INTO edges (" == "INSERT " + ("IGNORE INTO " + ("edges" + " ("))
  {
  }

  lemma CallParts()
    ensures "CALL DOLT_ADD(" == "CALL " + ("DOLT_ADD" + "(")
  {
  }

  lemma AsParts()
    ensures ") AS staged_hash" == ")" + (" AS " + "staged_hash")
  {
  }

  lemma SelectParts()
    ensures "SELECT DOLT_HASHOF_DB(" == "SELECT " + ("DOLT_HASHOF_DB" + "(")
  {
  }

  lemma UpdateKindParts()
    ensures UPDATE_KIND == ")" + (ON_DUPLICATE + ("kind" + " = "))
  {
  }

  lemma CaseWeightsParts()
    ensures CASE_WEIGHTS == " END" + (", " + ("weight" + (" = " + ("CASE " + "id"))))
  {
  }

  // `INSERT INTO t (..) VALUES (`, before whatever follows.
  lemma InsertHead(insert: string, start: string, into: string, table: string, names: seq<string>, x: Stream, y: Stream)
    requires names != [] && Same(x, y)
    requires insert == start + (Join(names, ", ") + ") VALUES (")
    requires start == "INSERT " + (into + (table + " ("))
    ensures Same(T(insert, x), T("INSERT ", T(into, T(table, T(" (", PutNames(names, T(") VALUES (", y)))))))
  {
    var list, closed := Join(names, ", "), T(") VALUES (", y);
    Same3(start, list, ") VALUES (", x, y);
    NamesText(names, closed, closed);
    Same4("INSERT ", into, table, " (", T(list, closed), PutNames(names, closed));
  }

  lemma PutValueNext(v: Value, rest: seq<Value>, after: Stream)
    requires rest != []
    ensures PutValues([v] + rest, after) == PutValue(v, T(", ", PutValues(rest, after)))
  {
    assert ([v] + rest)[1..] == rest;
  }

  lemma PutAssignNext(a: Assign, rest: seq<Assign>, after: Stream)
    requires rest != []
    ensures PutAssigns([a] + rest, after) == PutAssign(a, T(", ", PutAssigns(rest, after)))
  {
    assert ([a] + rest)[1..] == rest;
  }

  // The literals of a row, up to its weight.
  function RowStream(id: string, node: Node, after: Stream): Stream {
    L(id, T(", ", L(NodeKindName(node.kind), T(", ", L(node.title, T(", ", L(node.body, T(", ", L(node.tags, after)))))))))
  }

  lemma RowSame(id: string, node: Node, x: Stream, y: Stream)
    requires Same(x, y)
    ensures Same(RowStream(id, node, x), RowStream(id, node, y))
  {
    var a, b := L(node.tags, x), L(node.tags, y);
    SameNext(node.body, ", ", a, b);
    SameNext(node.title, ", ", L(node.body, T(", ", a)), L(node.body, T(", ", b)));
    var c, d := L(node.title, T(", ", L(node.body, T(", ", a)))), L(node.title, T(", ", L(node.body, T(", ", b))));
    SameNext(NodeKindName(node.kind), ", ", c, d);
    SameNext(id, ", ", L(NodeKindName(node.kind), T(", ", c)), L(NodeKindName(node.kind), T(", ", d)));
  }

  lemma ValuesStream(id: string, node: Node, end: Stream)
    ensures PutValues(RowValues(id, node), end) == RowStream(id, node, T(", ", PutValue(Number(node.weight), end)))
  {
    var v := RowValues(id, node);
    assert v == [v[0]] + v[1..] && v[1..] == [v[1]] + v[2..] && v[2..] == [v[2]] + v[3..];
    assert v[3..] == [v[3]] + v[4..] && v[4..] == [v[4]] + v[5..];
    PutValueNext(v[0], v[1..], end);
    PutValueNext(v[1], v[2..], end);
    PutValueNext(v[2], v[3..], end);
    PutValueNext(v[3], v[4..], end);
    PutValueNext(v[4], v[5..], end);
  }

  lemma RowThrough(id: string, node: Node, after: Stream)
    ensures Through(RowFields(id, node), after) == T(INSERT_NODE, RowStream(id, node, after))
  {
    var f := RowFields(id, node);
    assert f == [f[0]] + f[1..] && f[1..] == [f[1]] + f[2..] && f[2..] == [f[2]] + f[3..];
    assert f[3..] == [f[3]] + f[4..] && f[4..] == [f[4]] + [];
    ThroughCons(f[0], f[1..], after);
    ThroughCons(f[1], f[2..], after);
    ThroughCons(f[2], f[3..], after);
    ThroughCons(f[3], f[4..], after);
    ThroughCons(f[4], [], after);
  }

  lemma NodeHead(x: Stream, y: Stream)
    requires Same(x, y)
    ensures Same(T(INSERT_NODE, x), T("INSERT ", T("INTO ", T("nodes", T(" (", PutNames(NODE_COLUMNS, T(") VALUES (", y)))))))
  {
    NodeColumnList();
    InsertNodeParts();
    InsertHead(INSERT_NODE, "INSERT INTO nodes (", "INTO ", "nodes", NODE_COLUMNS, x, y);
  }

  // From its first column to whatever follows the values, the row's text is the grammar's.
  lemma RowText(id: string, node: Node, updates: seq<Assign>, x: Stream)
    requires GoodAssigns(updates)
    requires Same(x, T(", ", PutValue(Number(node.weight), T(")", PutClause(updates)))))
    ensures Good(Insert(false, "nodes", NODE_COLUMNS, RowValues(id, node), updates))
    ensures Same(Through(RowFields(id, node), x), PutSql(Insert(false, "nodes", NODE_COLUMNS, RowValues(id, node), updates)))
  {
    ColumnsAreNames();
    var end := T(")", PutClause(updates));
    var y := T(", ", PutValue(Number(node.weight), end));
    RowThrough(id, node, x);
    RowSame(id, node, x, y);
    ValuesStream(id, node, end);
    NodeHead(RowStream(id, node, x), RowStream(id, node, y));
  }

  lemma InsertText(id: string, node: Node)
    ensures StatementTokens(InsertTemplate(id, node)) == Flat(PutSql(SqlOf(InsertNode(id, node))))
  {
    TokensAreThrough(RowFields(id, node), ", " + Decimal(node.weight) + ")");
    SameNumber(", ", node.weight, ")", End, End);
    RowText(id, node, [], T(", " + Decimal(node.weight) + ")", End));
  }

  lemma UpdateKindText(x: Stream, y: Stream)
    requires Same(x, y)
    ensures Same(T(UPDATE_KIND, x), T(")", T(ON_DUPLICATE, T("kind", T(" = ", y)))))
  {
    UpdateKindParts();
    Same4(")", ON_DUPLICATE, "kind", " = ", x, y);
  }

  // One more assignment of a literal.
  lemma SetLiteral(sep: string, column: string, v: string, x: Stream, y: Stream)
    requires sep == ", " + (column + " = ") && Same(x, y)
    ensures Same(T(sep, L(v, x)), T(", ", PutAssign(Assign(column, Is(Literal(v))), y)))
  {
    assert Same(L(v, x), L(v, y));
    Same3(", ", column, " = ", L(v, x), L(v, y));
  }

  lemma SetNumber(sep: string, column: string, n: nat, behind: string, x: Stream, y: Stream)
    requires sep == ", " + (column + " = ") && Same(x, y)
    ensures Same(T(sep + Decimal(n) + behind, x), T(", ", PutAssign(Assign(column, Is(Number(n))), T(behind, y))))
    ensures Same(T(sep + Decimal(n), x), T(", ", PutAssign(Assign(column, Is(Number(n))), y)))
  {
    SameNumber(sep, n, behind, x, y);
    Same3(", ", column, " = ", PutValue(Number(n), T(behind, y)), PutValue(Number(n), T(behind, y)));
    Same3(", ", column, " = ", PutValue(Number(n), y), PutValue(Number(n), y));
  }

  lemma SeparatorTexts()
    ensures ", title = " == ", " + ("title" + " = ") && ", body = " == ", " + ("body" + " = ")
    ensures ", tags = " == ", " + ("tags" + " = ") && ", weight = " == ", " + ("weight" + " = ")
    ensures " WHERE id = " == " WHERE " + ("id" + " = ")
  {
  }

  // What follows the update clause's first assignment, as the template has it.
  function UpdateStream(node: Node): Stream {
    T(", title = ", L(node.title, T(", body = ", L(node.body, T(", tags = ", L(node.tags,
      T(", weight = " + Decimal(node.weight), End)))))))
  }

  lemma LastUpdates(node: Node)
    ensures Same(T(", tags = ", L(node.tags, T(", weight = " + Decimal(node.weight), End))),
                 T(", ", PutAssign(Assign("tags", Is(Literal(node.tags))),
                   T(", ", PutAssign(Assign("weight", Is(Number(node.weight))), End)))))
  {
    SeparatorTexts();
    SetNumber(", weight = ", "weight", node.weight, "", End, End);
    SetLiteral(", tags = ", "tags", node.tags, T(", weight = " + Decimal(node.weight), End),
               T(", ", PutAssign(Assign("weight", Is(Number(node.weight))), End)));
  }

  lemma FirstUpdates(node: Node, x: Stream, y: Stream)
    requires Same(x, y)
    ensures Same(T(", title = ", L(node.title, T(", body = ", L(node.body, x)))),
                 T(", ", PutAssign(Assign("title", Is(Literal(node.title))),
                   T(", ", PutAssign(Assign("body", Is(Literal(node.body))), y)))))
  {
    SeparatorTexts();
    SetLiteral(", body = ", "body", node.body, x, y);
    SetLiteral(", title = ", "title", node.title, T(", body = ", L(node.body, x)),
               T(", ", PutAssign(Assign("body", Is(Literal(node.body))), y)));
  }

  lemma UpdatesStream(node: Node)
    ensures GoodAssigns(RowUpdates(node))
    ensures
      var u := RowUpdates(node);
      PutAssigns(u, End) == PutAssign(u[0], T(", ", PutAssign(u[1], T(", ", PutAssign(u[2], T(", ", PutAssign(u[3],
                            T(", ", PutAssign(u[4], End)))))))))
  {
    var u := RowUpdates(node);
    ColumnsAreNames();
    assert u == [u[0]] + u[1..] && u[1..] == [u[1]] + u[2..] && u[2..] == [u[2]] + u[3..];
    assert u[3..] == [u[3]] + u[4..] && u[4..] == [u[4]];
    PutAssignNext(u[0], u[1..], End);
    PutAssignNext(u[1], u[2..], End);
    PutAssignNext(u[2], u[3..], End);
    PutAssignNext(u[3], u[4..], End);
  }

  function UpsertFields(node: Node): seq<Field> {
    [Field(", " + Decimal(node.weight) + UPDATE_KIND, NodeKindName(node.kind)), Field(", title = ", node.title),
     Field(", body = ", node.body), Field(", tags = ", node.tags)]
  }

  lemma UpsertThrough(node: Node)
    ensures Through(UpsertFields(node), T(", weight = " + Decimal(node.weight), End))
         == T(", " + Decimal(node.weight) + UPDATE_KIND, L(NodeKindName(node.kind), UpdateStream(node)))
  {
    var last, f := T(", weight = " + Decimal(node.weight), End), UpsertFields(node);
    assert f == [f[0]] + f[1..] && f[1..] == [f[1]] + f[2..] && f[2..] == [f[2]] + f[3..] && f[3..] == [f[3]] + [];
    ThroughCons(f[0], f[1..], last);
    ThroughCons(f[1], f[2..], last);
    ThroughCons(f[2], f[3..], last);
    ThroughCons(f[3], [], last);
  }

  // The update clause of the upsert, from the weight on.
  lemma UpsertTailText(node: Node)
    ensures GoodAssigns(RowUpdates(node))
    ensures Same(Through(UpsertFields(node), T(", weight = " + Decimal(node.weight), End)),
                 T(", ", PutValue(Number(node.weight), T(")", PutClause(RowUpdates(node))))))
  {
    var u, kind := RowUpdates(node), NodeKindName(node.kind);
    UpsertThrough(node);
    UpdatesStream(node);
    LastUpdates(node);
    var last := T(", ", PutAssign(u[3], T(", ", PutAssign(u[4], End))));
    var more := T(", ", PutAssign(u[1], T(", ", PutAssign(u[2], last))));
    FirstUpdates(node, T(", tags = ", L(node.tags, T(", weight = " + Decimal(node.weight), End))), last);
    WeightThenClause(node.weight, kind, UpdateStream(node), more);
  }

  lemma WeightThenClause(weight: nat, kind: string, x: Stream, y: Stream)
    requires Same(x, y)
    ensures Same(T(", " + Decimal(weight) + UPDATE_KIND, L(kind, x)),
                 T(", ", PutValue(Number(weight), T(")", T(ON_DUPLICATE, PutAssign(Assign("kind", Is(Literal(kind))), y))))))
  {
    var a, b := L(kind, x), L(kind, y);
    assert Same(a, b);
    UpdateKindText(a, b);
    SameNumber(", ", weight, UPDATE_KIND, a, a);
    NumberSame(", ", weight, T(UPDATE_KIND, a), T(")", T(ON_DUPLICATE, T("kind", T(" = ", b)))));
  }

  lemma NumberSame(before: string, n: nat, x: Stream, y: Stream)
    requires Same(x, y)
    ensures Same(T(before, PutValue(Number(n), x)), T(before, PutValue(Number(n), y)))
  {
  }

  lemma UpsertText(id: string, node: Node)
    ensures Good(SqlOf(UpsertNode(id, node)))
    ensures StatementTokens(UpsertTemplate(id, node)) == Flat(PutSql(SqlOf(UpsertNode(id, node))))
  {
    var tail := ", weight = " + Decimal(node.weight);
    TokensAreThrough(RowFields(id, node) + UpsertFields(node), tail);
    ThroughConcat(RowFields(id, node), UpsertFields(node), T(tail, End));
    UpsertTailText(node);
    RowText(id, node, RowUpdates(node), Through(UpsertFields(node), T(tail, End)));
  }

  lemma EdgeHead(x: Stream, y: Stream)
    requires Same(x, y)
    ensures Same(T(INSERT_EDGE, x), T("INSERT ", T("INTO ", T("edges", T(" (", PutNames(EDGE_COLUMNS, T(") VALUES (", y)))))))
  {
    EdgeColumnList();
    InsertEdgeParts();
    InsertHead(INSERT_EDGE, "INSERT INTO edges (", "INTO ", "edges", EDGE_COLUMNS, x, y);
  }

  lemma IgnoreHead(x: Stream, y: Stream)
    requires Same(x, y)
    ensures Same(T(IGNORE_EDGE, x),
                 T("INSERT ", T("IGNORE INTO ", T("edges", T(" (", PutNames(EDGE_COLUMNS, T(") VALUES (", y)))))))
  {
    EdgeColumnList();
    IgnoreEdgeParts();
    InsertHead(IGNORE_EDGE, "INSERT IGNORE INTO edges (", "IGNORE INTO ", "edges", EDGE_COLUMNS, x, y);
  }

  lemma EdgeThrough(insert: string, e: Edge, after: Stream)
    ensures Through(EdgeTemplate(insert, e).fields, after) == T(insert, PutValues(EdgeValues(e), after))
  {
    var f, v := EdgeTemplate(insert, e).fields, EdgeValues(e);
    assert f == [f[0]] + f[1..] && f[1..] == [f[1]] + f[2..] && f[2..] == [f[2]] + [];
    ThroughCons(f[0], f[1..], after);
    ThroughCons(f[1], f[2..], after);
    ThroughCons(f[2], [], after);
    assert v == [v[0]] + v[1..] && v[1..] == [v[1]] + v[2..];
    PutValueNext(v[0], v[1..], after);
    PutValueNext(v[1], v[2..], after);
  }

  lemma InsertPrints(t: Template, ignore: bool, table: string, columns: seq<string>, values: seq<Value>)
    requires Good(Insert(ignore, table, columns, values, []))
    requires Same(Through(t.fields, T(t.tail, End)),
                  T("INSERT ", T(if ignore then "IGNORE INTO " else "INTO ", T(table, T(" (",
                    PutNames(columns, T(") VALUES (", PutValues(values, T(")", End)))))))))
    ensures StatementTokens(t) == Flat(PutSql(Insert(ignore, table, columns, values, [])))
  {
    PrintsSql(t, Insert(ignore, table, columns, values, []), PutSql(Insert(ignore, table, columns, values, [])));
  }

  lemma EdgeIsGood(ignore: bool, e: Edge)
    ensures Good(Insert(ignore, "edges", EDGE_COLUMNS, EdgeValues(e), []))
  {
    ColumnsAreNames();
  }

  lemma EdgeText(e: Edge)
    ensures Good(Insert(false, "edges", EDGE_COLUMNS, EdgeValues(e), []))
    ensures StatementTokens(EdgeTemplate(INSERT_EDGE, e)) == Flat(PutSql(Insert(false, "edges", EDGE_COLUMNS, EdgeValues(e), [])))
  {
    var values := PutValues(EdgeValues(e), T(")", End));
    EdgeIsGood(false, e);
    EdgeThrough(INSERT_EDGE, e, T(")", End));
    EdgeHead(values, values);
    InsertPrints(EdgeTemplate(INSERT_EDGE, e), false, "edges", EDGE_COLUMNS, EdgeValues(e));
  }

  lemma IgnoreText(e: Edge)
    ensures Good(Insert(true, "edges", EDGE_COLUMNS, EdgeValues(e), []))
    ensures StatementTokens(EdgeTemplate(IGNORE_EDGE, e)) == Flat(PutSql(Insert(true, "edges", EDGE_COLUMNS, EdgeValues(e), [])))
  {
    var values := PutValues(EdgeValues(e), T(")", End));
    EdgeIsGood(true, e);
    EdgeThrough(IGNORE_EDGE, e, T(")", End));
    IgnoreHead(values, values);
    InsertPrints(EdgeTemplate(IGNORE_EDGE, e), true, "edges", EDGE_COLUMNS, EdgeValues(e));
  }

  lemma UpdateTagsText(x: Stream, y: Stream)
    requires Same(x, y)
    ensures Same(T(UPDATE_TAGS, x), T("UPDATE ", T("nodes", T(" SET ", T("tags", T(" = ", y))))))
  {
    UpdateTagsParts();
    Same5("UPDATE ", "nodes", " SET ", "tags", " = ", x, y);
  }

  lemma UpdateThrough(id: string, weight: nat, tags: string)
    ensures Through(UpdateTemplate(id, weight, tags).fields, T("", End))
         == T(UPDATE_TAGS, L(tags, T(", weight = " + Decimal(weight) + " WHERE id = ", L(id, T("", End)))))
  {
    var f := UpdateTemplate(id, weight, tags).fields;
    assert f == [f[0]] + f[1..] && f[1..] == [f[1]] + [];
    ThroughCons(f[0], f[1..], T("", End));
    ThroughCons(f[1], [], T("", End));
  }

  lemma WhereText(id: string)
    ensures Same(T(" WHERE id = ", L(id, T("", End))), T(" WHERE ", PutWhere(Equals("id", Literal(id)))))
  {
    SeparatorTexts();
    assert Same(T("", End), End);
    assert Same(L(id, T("", End)), L(id, End));
    Same3(" WHERE ", "id", " = ", L(id, T("", End)), L(id, End));
  }

  lemma TwoAssigns(a: Assign, b: Assign, after: Stream)
    ensures PutAssigns([a, b], after) == PutAssign(a, T(", ", PutAssign(b, after)))
  {
    assert [a, b] == [a] + [b];
    PutAssignNext(a, [b], after);
  }

  lemma UpdateSame(id: string, weight: nat, tags: string)
    ensures Same(Through(UpdateTemplate(id, weight, tags).fields, T("", End)),
                 T("UPDATE ", T("nodes", T(" SET ", PutAssign(Assign("tags", Is(Literal(tags))),
                   T(", ", PutAssign(Assign("weight", Is(Number(weight))), T(" WHERE ", PutWhere(Equals("id", Literal(id)))))))))))
  {
    var b, where := Assign("weight", Is(Number(weight))), T(" WHERE ", PutWhere(Equals("id", Literal(id))));
    UpdateThrough(id, weight, tags);
    SetWeight(weight, id);
    LiteralSame(tags, T(", weight = " + Decimal(weight) + " WHERE id = ", L(id, T("", End))), T(", ", PutAssign(b, where)));
    UpdateTagsText(L(tags, T(", weight = " + Decimal(weight) + " WHERE id = ", L(id, T("", End)))),
                   L(tags, T(", ", PutAssign(b, where))));
  }

  lemma LiteralSame(v: string, x: Stream, y: Stream)
    requires Same(x, y)
    ensures Same(L(v, x), L(v, y))
  {
  }

  lemma UpdateIs(a: Assign, b: Assign, filter: Where)
    requires Good(Update("nodes", [a, b], filter))
    ensures PutSql(Update("nodes", [a, b], filter))
         == T("UPDATE ", T("nodes", T(" SET ", PutAssign(a, T(", ", PutAssign(b, T(" WHERE ", PutWhere(filter))))))))
  {
    TwoAssigns(a, b, T(" WHERE ", PutWhere(filter)));
  }

  lemma UpdatePrints(t: Template, a: Assign, b: Assign, filter: Where)
    requires Good(Update("nodes", [a, b], filter))
    requires Same(Through(t.fields, T(t.tail, End)),
                  T("UPDATE ", T("nodes", T(" SET ", PutAssign(a, T(", ", PutAssign(b, T(" WHERE ", PutWhere(filter)))))))))
    ensures StatementTokens(t) == Flat(PutSql(Update("nodes", [a, b], filter)))
  {
    UpdateIs(a, b, filter);
    PrintsSql(t, Update("nodes", [a, b], filter), PutSql(Update("nodes", [a, b], filter)));
  }

  lemma UpdateIsGood(id: string, weight: nat, tags: string)
    ensures Good(UpdateSql(id, weight, tags))
  {
    ColumnsAreNames();
  }

  lemma UpdateText(id: string, weight: nat, tags: string)
    ensures Good(UpdateSql(id, weight, tags))
    ensures StatementTokens(UpdateTemplate(id, weight, tags)) == Flat(PutSql(UpdateSql(id, weight, tags)))
  {
    UpdateIsGood(id, weight, tags);
    UpdateSame(id, weight, tags);
    UpdatePrints(UpdateTemplate(id, weight, tags), Assign("tags", Is(Literal(tags))), Assign("weight", Is(Number(weight))),
                 Equals("id", Literal(id)));
  }

  lemma SetWeight(weight: nat, id: string)
    ensures Same(T(", weight = " + Decimal(weight) + " WHERE id = ", L(id, T("", End))),
                 T(", ", PutAssign(Assign("weight", Is(Number(weight))), T(" WHERE ", PutWhere(Equals("id", Literal(id)))))))
  {
    var x := L(id, T("", End));
    SeparatorTexts();
    WhereText(id);
    SetNumber(", weight = ", "weight", weight, " WHERE id = ", x, x);
    AssignSame("weight", weight, T(" WHERE id = ", x), T(" WHERE ", PutWhere(Equals("id", Literal(id)))));
  }

  lemma AssignSame(column: string, n: nat, x: Stream, y: Stream)
    requires Same(x, y)
    ensures Same(T(", ", PutAssign(Assign(column, Is(Number(n))), x)), T(", ", PutAssign(Assign(column, Is(Number(n))), y)))
  {
    NumberSame(" = ", n, x, y);
    assert Same(PutAssign(Assign(column, Is(Number(n))), x), PutAssign(Assign(column, Is(Number(n))), y));
  }

  lemma NextWhen(open: string, id: string, v: Value, x: Stream, y: Stream)
    requires Same(x, y)
    ensures Same(T(open + " WHEN ", L(id, T(" THEN ", PutValue(v, x)))), T(open, T(" WHEN ", L(id, T(" THEN ", PutValue(v, y))))))
  {
    assert Same(PutValue(v, x), PutValue(v, y));
    SameNext(id, " THEN ", PutValue(v, x), PutValue(v, y));
    Same2(open, " WHEN ", L(id, T(" THEN ", PutValue(v, x))), L(id, T(" THEN ", PutValue(v, y))));
  }

  lemma TagsCons(arm: Arm, open: string, rest: seq<Field>, x: Stream)
    ensures Through([Field(open + " WHEN ", arm.id), Field(" THEN ", arm.tags)] + rest, x)
         == T(open + " WHEN ", L(arm.id, T(" THEN ", L(arm.tags, Through(rest, x)))))
  {
    var f, g := Field(open + " WHEN ", arm.id), Field(" THEN ", arm.tags);
    assert [f, g] + rest == [f] + ([g] + rest);
    ThroughCons(f, [g] + rest, x);
    ThroughCons(g, rest, x);
  }

  lemma {:induction false} TagsThrough(arms: seq<Arm>, open: string, x: Stream, y: Stream)
    requires Same(x, y)
    ensures arms != [] ==> Same(Through(TagFields(arms, open), x), T(open, PutWhens(TagWhens(arms), y)))
    ensures arms == [] ==> Same(Through(TagFields(arms, open), x), y)
  {
    if arms != [] {
      var more, whens := Through(TagFields(arms[1..], ""), x), PutWhens(TagWhens(arms[1..]), y);
      TagsCons(arms[0], open, TagFields(arms[1..], ""), x);
      TagsThrough(arms[1..], "", x, y);
      assert Same(T("", whens), whens);
      assert Same(more, whens);
      NextWhen(open, arms[0].id, Literal(arms[0].tags), more, whens);
      assert TagWhens(arms)[1..] == TagWhens(arms[1..]);
    }
  }

  // The weights end in the text of the last, which opens what follows.
  lemma {:induction false} WeightsThrough(arms: seq<Arm>, open: string, x: Stream, y: Stream)
    requires arms != [] && Same(x, y)
    ensures Same(Through(WeightFields(arms, open), T(LastWeight(arms), x)), T(open, PutWhens(WeightWhens(arms), y)))
  {
    var id, n, end := arms[0].id, arms[0].weight, T(LastWeight(arms), x);
    var f, next := Field(open + " WHEN ", id), " THEN " + Decimal(n);
    var rest, whens := Through(WeightFields(arms[1..], next), end), PutWhens(WeightWhens(arms[1..]), y);
    ThroughCons(f, WeightFields(arms[1..], next), end);
    assert WeightWhens(arms)[1..] == WeightWhens(arms[1..]);
    if |arms| > 1 { WeightsThrough(arms[1..], next, x, y); }
    assert |arms| == 1 ==> rest == T(next, x) && whens == y;
    if |arms| > 1 { SameNumber(" THEN ", n, "", whens, whens); } else { SameNumber(" THEN ", n, "", x, y); }
    var body := T(" THEN ", PutValue(Number(n), whens));
    assert Same(rest, body);
    LiteralSame(id, rest, body);
    Same2(open, " WHEN ", L(id, rest), L(id, body));
  }

  lemma {:induction false} IdsThrough(arms: seq<Arm>, open: string, after: Stream)
    requires arms != []
    ensures Through(IdFields(arms, open), after) == T(open, PutValues(IdValues(arms), after))
  {
    var f, more := Field(open, arms[0].id), IdFields(arms[1..], ", ");
    ThroughCons(f, more, after);
    if |arms| > 1 {
      IdsThrough(arms[1..], ", ", after);
      PutValueNext(Literal(arms[0].id), IdValues(arms[1..]), after);
    }
  }

  lemma CaseTagsText(x: Stream, y: Stream)
    requires Same(x, y)
    ensures Same(T(CASE_TAGS, x), T("UPDATE ", T("nodes", T(" SET ", T("tags", T(" = ", T("CASE ", T("id", y))))))))
  {
    CaseIdParts();
    Same2(UPDATE_TAGS, "CASE id", x, x);
    Same2("CASE ", "id", x, y);
    UpdateTagsText(T("CASE id", x), T("CASE ", T("id", y)));
  }

  lemma CaseWeightsText(x: Stream, y: Stream)
    requires Same(x, y)
    ensures Same(T(CASE_WEIGHTS, x), T(" END", T(", ", T("weight", T(" = ", T("CASE ", T("id", y)))))))
  {
    CaseWeightsParts();
    Same6(" END", ", ", "weight", " = ", "CASE ", "id", x, y);
  }

  lemma Same6(a: string, b: string, c: string, d: string, e: string, f: string, x: Stream, y: Stream)
    requires Same(x, y)
    ensures Same(T(a + (b + (c + (d + (e + f)))), x), T(a, T(b, T(c, T(d, T(e, T(f, y)))))))
  {
    Same5(b, c, d, e, f, x, y);
    Same2(a, b + (c + (d + (e + f))), x, x);
  }

  lemma CaseIdsText(x: Stream, y: Stream)
    requires Same(x, y)
    ensures Same(T(CASE_IDS, x), T(" END", T(" WHERE ", T("id", T(" IN (", y)))))
  {
    CaseIdsParts();
    Same4(" END", " WHERE ", "id", " IN (", x, y);
  }

  lemma CaseThrough(arms: seq<Arm>, ids: Stream, weights: Stream)
    requires arms != []
    requires Same(T(CASE_IDS, PutValues(IdValues(arms), T(")", End))), ids)
    requires Same(T(CASE_WEIGHTS, PutWhens(WeightWhens(arms), ids)), weights)
    ensures Same(Through(CaseTemplate(arms).fields, T(")", End)), T(CASE_TAGS, PutWhens(TagWhens(arms), weights)))
  {
    var end, last := T(")", End), LastWeight(arms);
    var tagFields, weightFields := TagFields(arms, CASE_TAGS), WeightFields(arms, CASE_WEIGHTS);
    var idFields := IdFields(arms, last + CASE_IDS);
    var values := PutValues(IdValues(arms), end);
    ThroughConcat(tagFields + weightFields, idFields, end);
    ThroughConcat(tagFields, weightFields, Through(idFields, end));
    IdsThrough(arms, last + CASE_IDS, end);
    Same2(last, CASE_IDS, values, values);
    assert Same(Through(idFields, end), T(last, T(CASE_IDS, values)));
    ThroughSame(weightFields, Through(idFields, end), T(last, T(CASE_IDS, values)));
    WeightsThrough(arms, CASE_WEIGHTS, T(CASE_IDS, values), ids);
    TagsThrough(arms, CASE_TAGS, Through(weightFields, Through(idFields, end)), weights);
  }

  // The whole statement, from its last part to its first.
  lemma CaseSame(arms: seq<Arm>)
    requires arms != []
    ensures
      var values := PutValues(IdValues(arms), T(")", End));
      var where := T(" WHERE ", T("id", T(" IN (", values)));
      var weights := T(" END", T(", ", T("weight", T(" = ", T("CASE ", T("id", PutWhens(WeightWhens(arms), T(" END", where))))))));
      Same(Through(CaseTemplate(arms).fields, T(")", End)),
           T("UPDATE ", T("nodes", T(" SET ", T("tags", T(" = ", T("CASE ", T("id", PutWhens(TagWhens(arms), weights)))))))))
  {
    var values := PutValues(IdValues(arms), T(")", End));
    var ids := T(" END", T(" WHERE ", T("id", T(" IN (", values))));
    CaseIdsText(values, values);
    var whens := PutWhens(WeightWhens(arms), ids);
    CaseWeightsText(whens, whens);
    var weights := T(" END", T(", ", T("weight", T(" = ", T("CASE ", T("id", whens))))));
    CaseThrough(arms, ids, weights);
    CaseTagsText(PutWhens(TagWhens(arms), weights), PutWhens(TagWhens(arms), weights));
  }

  lemma CaseStream(tags: seq<When>, weights: seq<When>, values: seq<Value>)
    requires values != []
    requires Good(Update("nodes", [Assign("tags", Case("id", tags)), Assign("weight", Case("id", weights))], In("id", values)))
    ensures
      var where := T(" WHERE ", T("id", T(" IN (", PutValues(values, T(")", End)))));
      var last := T(" END", T(", ", T("weight", T(" = ", T("CASE ", T("id", PutWhens(weights, T(" END", where))))))));
      PutSql(Update("nodes", [Assign("tags", Case("id", tags)), Assign("weight", Case("id", weights))], In("id", values)))
      == T("UPDATE ", T("nodes", T(" SET ", T("tags", T(" = ", T("CASE ", T("id", PutWhens(tags, last))))))))
  {
    var where := T(" WHERE ", PutWhere(In("id", values)));
    TwoAssigns(Assign("tags", Case("id", tags)), Assign("weight", Case("id", weights)), where);
  }

  // The stream of the batched re-weight.
  function CaseStreamOf(arms: seq<Arm>): Stream
    requires arms != []
  {
    var where := T(" WHERE ", T("id", T(" IN (", PutValues(IdValues(arms), T(")", End)))));
    var weights := T(" END", T(", ", T("weight", T(" = ", T("CASE ", T("id", PutWhens(WeightWhens(arms), T(" END", where))))))));
    T("UPDATE ", T("nodes", T(" SET ", T("tags", T(" = ", T("CASE ", T("id", PutWhens(TagWhens(arms), weights))))))))
  }

  lemma CaseSqlText(arms: seq<Arm>)
    requires arms != []
    ensures Good(SqlOf(CaseUpdate(arms)))
    ensures StatementTokens(CaseTemplate(arms)) == Flat(PutSql(SqlOf(CaseUpdate(arms))))
  {
    SqlIsGood(CaseUpdate(arms));
    CaseSame(arms);
    CaseStream(TagWhens(arms), WeightWhens(arms), IdValues(arms));
    PrintsSql(CaseTemplate(arms), SqlOf(CaseUpdate(arms)), CaseStreamOf(arms));
  }

  // A call with two literals, and one with one literal and a name for its result.
  lemma AddThrough(a: string, b: string, after: Stream)
    ensures Through([Field("CALL DOLT_ADD(", a), Field(", ", b)], after) == T("CALL DOLT_ADD(", L(a, T(", ", L(b, after))))
  {
    assert [Field("CALL DOLT_ADD(", a), Field(", ", b)] == [Field("CALL DOLT_ADD(", a)] + ([Field(", ", b)] + []);
    ThroughCons(Field("CALL DOLT_ADD(", a), [Field(", ", b)] + [], after);
    ThroughCons(Field(", ", b), [], after);
  }

  lemma CallText(x: Stream)
    ensures Same(T("CALL DOLT_ADD(", x), T("CALL ", T("DOLT_ADD", T("(", x))))
  {
    CallParts();
    Same3("CALL ", "DOLT_ADD", "(", x, x);
  }

  lemma TwoValues(a: string, b: string, after: Stream)
    ensures PutValues([Literal(a), Literal(b)], after) == L(a, T(", ", L(b, after)))
  {
    assert [Literal(a), Literal(b)] == [Literal(a)] + [Literal(b)];
    PutValueNext(Literal(a), [Literal(b)], after);
  }

  lemma ProceduresAreNames()
    ensures IsName("DOLT_ADD") && IsName("DOLT_HASHOF_DB") && IsName("staged_hash")
  {
  }

  lemma AddText()
    ensures Good(AddSql())
    ensures StatementTokens(AddTemplate()) == Flat(PutSql(AddSql()))
  {
    var end := T(")", End);
    ProceduresAreNames();
    TokensAreThrough(AddTemplate().fields, ")");
    AddThrough("nodes", "edges", end);
    CallText(L("nodes", T(", ", L("edges", end))));
    TwoValues("nodes", "edges", end);
  }

  function AddSql(): Sql { Call("DOLT_ADD", [Literal("nodes"), Literal("edges")]) }

  function HashSql(): Sql { Select("DOLT_HASHOF_DB", [Literal("STAGED")], "staged_hash") }

  lemma AsText()
    ensures Same(T(") AS staged_hash", End), T(")", T(" AS ", T("staged_hash", End))))
  {
    AsParts();
    Same3(")", " AS ", "staged_hash", End, End);
  }

  lemma SelectText(x: Stream, y: Stream)
    requires Same(x, y)
    ensures Same(T("SELECT DOLT_HASHOF_DB(", x), T("SELECT ", T("DOLT_HASHOF_DB", T("(", y))))
  {
    SelectParts();
    Same3("SELECT ", "DOLT_HASHOF_DB", "(", x, y);
  }

  lemma HashThrough(of: string, after: Stream)
    ensures Through([Field("SELECT DOLT_HASHOF_DB(", of)], after) == T("SELECT DOLT_HASHOF_DB(", L(of, after))
  {
    assert [Field("SELECT DOLT_HASHOF_DB(", of)] == [Field("SELECT DOLT_HASHOF_DB(", of)] + [];
    ThroughCons(Field("SELECT DOLT_HASHOF_DB(", of), [], after);
  }

  lemma HashText()
    ensures Good(HashSql())
    ensures StatementTokens(HashTemplate()) == Flat(PutSql(HashSql()))
  {
    var end, named := T(") AS staged_hash", End), T(")", T(" AS ", T("staged_hash", End)));
    ProceduresAreNames();
    TokensAreThrough(HashTemplate().fields, ") AS staged_hash");
    HashThrough("STAGED", end);
    AsText();
    LiteralSame("STAGED", end, named);
    SelectText(L("STAGED", end), L("STAGED", named));
  }

  // ---- Reading what was printed ----

  lemma NamesAreRead(node: NodeKind, edge: EdgeKind)
    ensures NodeKindOf(NodeKindName(node)) == Some(node) && EdgeKindOf(EdgeKindName(edge)) == Some(edge)
  {
    DifferentNames();
  }

  lemma DifferentNames()
    ensures "question"[0] != "term"[0] && "question"[0] != "belief"[0] && "term"[0] != "belief"[0]
    ensures "begets"[0] != "probes"[0] && "refines"[0] !in ['b', 'p'] && "contradicts"[0] !in ['b', 'p', 'r']
    ensures "agrees"[0] !in ['b', 'p', 'r', 'c'] && "disagrees"[0] !in ['b', 'p', 'r', 'c', 'a']
  {
  }

  lemma {:induction false} ValueAt(columns: seq<string>, values: seq<Value>, i: nat)
    requires NoRepeats(columns) && |columns| == |values| && i < |columns|
    ensures ValueOf(columns, values, columns[i]) == Some(values[i])
    decreases i
  {
    if i > 0 {
      assert columns[0] != columns[i];
      forall j, k | 0 <= j < k < |columns[1..]| ensures columns[1..][j] != columns[1..][k] {
        assert columns[j + 1] != columns[k + 1];
      }
      ValueAt(columns[1..], values[1..], i - 1);
    }
  }

  lemma ColumnsDiffer()
    ensures NoRepeats(NODE_COLUMNS) && NoRepeats(EDGE_COLUMNS)
    ensures "tags" != "weight"
  {
    assert |"id"| == 2 && |"title"| == 5 && |"weight"| == 6;
    assert "kind"[0] != "body"[0] && "kind"[0] != "tags"[0] && "body"[0] != "tags"[0];
    assert |"from_id"| == 7 && |"to_id"| == 5 && |"kind"| == 4;
  }

  // Each of six distinct columns has the value in its place.
  lemma SixValues(c: seq<string>, v: seq<Value>)
    requires |c| == |v| == 6 && NoRepeats(c)
    ensures ValueOf(c, v, c[0]) == Some(v[0]) && ValueOf(c, v, c[1]) == Some(v[1]) && ValueOf(c, v, c[2]) == Some(v[2])
    ensures ValueOf(c, v, c[3]) == Some(v[3]) && ValueOf(c, v, c[4]) == Some(v[4]) && ValueOf(c, v, c[5]) == Some(v[5])
  {
    ValueAt(c, v, 0);
    ValueAt(c, v, 1);
    ValueAt(c, v, 2);
    ValueAt(c, v, 3);
    ValueAt(c, v, 4);
    ValueAt(c, v, 5);
  }

  lemma ColumnsAre()
    ensures NODE_COLUMNS[0] == "id" && NODE_COLUMNS[1] == "kind" && NODE_COLUMNS[2] == "title"
    ensures NODE_COLUMNS[3] == "body" && NODE_COLUMNS[4] == "tags" && NODE_COLUMNS[5] == "weight"
  {
  }

  lemma RowHas(id: string, node: Node)
    ensures
      var v := RowValues(id, node);
      && ValueOf(NODE_COLUMNS, v, "id") == Some(v[0]) && ValueOf(NODE_COLUMNS, v, "kind") == Some(v[1])
      && ValueOf(NODE_COLUMNS, v, "title") == Some(v[2]) && ValueOf(NODE_COLUMNS, v, "body") == Some(v[3])
      && ValueOf(NODE_COLUMNS, v, "tags") == Some(v[4]) && ValueOf(NODE_COLUMNS, v, "weight") == Some(v[5])
  {
    ColumnsDiffer();
    ColumnsAre();
    SixValues(NODE_COLUMNS, RowValues(id, node));
  }

  lemma RowIsRead(id: string, node: Node)
    ensures RowOf(NODE_COLUMNS, RowValues(id, node)) == Some((id, node))
  {
    RowHas(id, node);
    NamesAreRead(node.kind, Begets);
  }

  lemma SetNext(a: Assign, rest: seq<Assign>, column: string)
    ensures SetTo([a] + rest, column) == if a.column == column then Some(a.expr) else SetTo(rest, column)
  {
    assert ([a] + rest)[1..] == rest;
  }

  lemma {:induction false} SetAt(sets: seq<Assign>, i: nat)
    requires i < |sets| && forall k :: 0 <= k < i ==> sets[k].column != sets[i].column
    ensures SetTo(sets, sets[i].column) == Some(sets[i].expr)
    decreases i
  {
    if i > 0 {
      assert forall k :: 0 <= k < i - 1 ==> sets[1..][k] == sets[k + 1];
      SetAt(sets[1..], i - 1);
    }
  }

  // Each of five distinct columns is assigned what stands in its place.
  lemma FiveSets(u: seq<Assign>)
    requires |u| == 5 && forall i, j :: 0 <= i < j < 5 ==> u[i].column != u[j].column
    ensures SetTo(u, u[0].column) == Some(u[0].expr) && SetTo(u, u[1].column) == Some(u[1].expr)
    ensures SetTo(u, u[2].column) == Some(u[2].expr) && SetTo(u, u[3].column) == Some(u[3].expr)
    ensures SetTo(u, u[4].column) == Some(u[4].expr)
  {
    SetAt(u, 0);
    SetAt(u, 1);
    SetAt(u, 2);
    SetAt(u, 3);
    SetAt(u, 4);
  }

  lemma UpdatesDiffer(node: Node)
    ensures
      var u := RowUpdates(node);
      forall i, j :: 0 <= i < j < 5 ==> u[i].column != u[j].column
  {
    assert |"title"| == 5 && |"weight"| == 6;
    assert "kind"[0] != "body"[0] && "kind"[0] != "tags"[0] && "body"[0] != "tags"[0];
  }

  lemma UpdatesRefresh(id: string, node: Node)
    ensures Refreshes(RowUpdates(node), NODE_COLUMNS, RowValues(id, node))
  {
    RowHas(id, node);
    UpdatesDiffer(node);
    FiveSets(RowUpdates(node));
  }

  lemma NodeInsertIsRead(id: string, node: Node)
    ensures NodeInsert(false, NODE_COLUMNS, RowValues(id, node), []) == Some(InsertNode(id, node))
    ensures NodeInsert(false, NODE_COLUMNS, RowValues(id, node), RowUpdates(node)) == Some(UpsertNode(id, node))
  {
    RowIsRead(id, node);
    UpdatesRefresh(id, node);
  }

  lemma EdgeInsertIsRead(e: Edge, at: nat)
    ensures EdgeInsert(false, EDGE_COLUMNS, EdgeValues(e), at) == Some(InsertEdge(e, at))
    ensures EdgeInsert(true, EDGE_COLUMNS, EdgeValues(e), at) == Some(InsertIgnoreEdge(e, at))
  {
    ColumnsDiffer();
    NamesAreRead(Question, e.kind);
    ValueAt(EDGE_COLUMNS, EdgeValues(e), 0);
    ValueAt(EDGE_COLUMNS, EdgeValues(e), 1);
    ValueAt(EDGE_COLUMNS, EdgeValues(e), 2);
    assert EDGE_COLUMNS[0] == "from_id" && EDGE_COLUMNS[1] == "to_id" && EDGE_COLUMNS[2] == "kind";
  }

  lemma ArmsCons(t: When, w: When, id: Value, ts: seq<When>, ws: seq<When>, ids: seq<Value>)
    ensures ArmsRead([t] + ts, [w] + ws, [id] + ids) ==
              if ArmOf(t, w, id).Some? && ArmsRead(ts, ws, ids).Some?
              then Some([ArmOf(t, w, id).value] + ArmsRead(ts, ws, ids).value) else None
  {
    assert ([t] + ts)[1..] == ts && ([w] + ws)[1..] == ws && ([id] + ids)[1..] == ids;
  }

  lemma {:induction false} ArmsAreRead(arms: seq<Arm>)
    ensures ArmsRead(TagWhens(arms), WeightWhens(arms), IdValues(arms)) == Some(arms)
  {
    if arms != [] {
      var a := arms[0];
      ArmsAreRead(arms[1..]);
      ArmsCons(When(a.id, Literal(a.tags)), When(a.id, Number(a.weight)), Literal(a.id),
               TagWhens(arms[1..]), WeightWhens(arms[1..]), IdValues(arms[1..]));
      assert arms == [a] + arms[1..];
    }
  }

  lemma TwoSets(tags: Expr, weight: Expr)
    ensures SetTo([Assign("tags", tags), Assign("weight", weight)], "tags") == Some(tags)
    ensures SetTo([Assign("tags", tags), Assign("weight", weight)], "weight") == Some(weight)
  {
    var sets := [Assign("tags", tags), Assign("weight", weight)];
    ColumnsDiffer();
    SetAt(sets, 0);
    SetAt(sets, 1);
  }

  lemma NodeUpdateIsRead(id: string, weight: nat, tags: string)
    ensures NodeUpdate([Assign("tags", Is(Literal(tags))), Assign("weight", Is(Number(weight)))], Equals("id", Literal(id)))
         == Some(UpdateNode(id, weight, tags))
  {
    TwoSets(Is(Literal(tags)), Is(Number(weight)));
  }

  lemma NodeCaseIsRead(arms: seq<Arm>)
    ensures NodeUpdate([Assign("tags", Case("id", TagWhens(arms))), Assign("weight", Case("id", WeightWhens(arms)))],
                       In("id", IdValues(arms)))
         == Some(CaseUpdate(arms))
  {
    TwoSets(Case("id", TagWhens(arms)), Case("id", WeightWhens(arms)));
    ArmsAreRead(arms);
  }

  lemma CommandIs(s: Statement, at: nat)
    requires Sent(s, at)
    ensures CommandOf(SqlOf(s), at) == Some(Write(s))
  {
    assert "nodes"[0] != "edges"[0];
    match s
    case InsertNode(id, node) => NodeInsertIsRead(id, node);
    case UpsertNode(id, node) => NodeInsertIsRead(id, node);
    case InsertEdge(edge, _) => EdgeInsertIsRead(edge, at);
    case InsertIgnoreEdge(edge, _) => EdgeInsertIsRead(edge, at);
    case UpdateNode(id, weight, tags) => NodeUpdateIsRead(id, weight, tags);
    case CaseUpdate(arms) => NodeCaseIsRead(arms);
  }

  lemma InsertIsSql(id: string, node: Node)
    ensures Good(SqlOf(InsertNode(id, node)))
    ensures StatementTokens(Render(InsertNode(id, node))) == Flat(PutSql(SqlOf(InsertNode(id, node))))
  {
    SqlIsGood(InsertNode(id, node));
    InsertText(id, node);
  }

  lemma UpdateIsSql(id: string, weight: nat, tags: string)
    ensures Good(SqlOf(UpdateNode(id, weight, tags)))
    ensures StatementTokens(Render(UpdateNode(id, weight, tags))) == Flat(PutSql(SqlOf(UpdateNode(id, weight, tags))))
  {
    var s, sql := UpdateNode(id, weight, tags), UpdateSql(id, weight, tags);
    UpdateTexts(id, weight, tags);
    UpdateText(id, weight, tags);
    PrintedAs(s, UpdateTemplate(id, weight, tags), sql);
  }

  lemma UpdateTexts(id: string, weight: nat, tags: string)
    ensures Render(UpdateNode(id, weight, tags)) == UpdateTemplate(id, weight, tags)
    ensures SqlOf(UpdateNode(id, weight, tags)) == UpdateSql(id, weight, tags)
  {
  }

  lemma PrintedAs(s: Statement, t: Template, sql: Sql)
    requires s.CaseUpdate? ==> s.arms != []
    requires Render(s) == t && SqlOf(s) == sql && Good(sql) && StatementTokens(t) == Flat(PutSql(sql))
    ensures Good(SqlOf(s)) && StatementTokens(Render(s)) == Flat(PutSql(SqlOf(s)))
  {
  }

  lemma EdgeTextIsSql(s: Statement)
    requires s.InsertEdge? || s.InsertIgnoreEdge?
    ensures Good(SqlOf(s)) && StatementTokens(Render(s)) == Flat(PutSql(SqlOf(s)))
  {
    if s.InsertEdge? { EdgeText(s.edge); } else { IgnoreText(s.edge); }
  }

  lemma TextIsSql(s: Statement)
    requires s.CaseUpdate? ==> s.arms != []
    ensures Good(SqlOf(s)) && StatementTokens(Render(s)) == Flat(PutSql(SqlOf(s)))
  {
    if s.CaseUpdate? { CaseSqlText(s.arms); }
    else if s.InsertEdge? || s.InsertIgnoreEdge? { EdgeTextIsSql(s); }
    else if s.InsertNode? { InsertIsSql(s.id, s.node); }
    else if s.UpsertNode? { UpsertText(s.id, s.node); }
    else { UpdateIsSql(s.id, s.weight, s.tags); }
  }

  lemma DecodedBy(tokens: seq<Token>, sql: Sql, at: nat)
    requires Good(sql) && tokens == Flat(PutSql(sql))
    ensures Decode(tokens, at) == CommandOf(sql, at)
  {
    SqlIsRead(sql);
  }

  // Parsed by the grammar, and each value matched to the column named for it, a printed
  // statement is the statement that was meant: every kind quizdom sends.
  lemma RenderIsRead(s: Statement, at: nat)
    requires Sent(s, at)
    ensures Decode(StatementTokens(Render(s)), at) == Some(Write(s))
  {
    TextIsSql(s);
    DecodedBy(StatementTokens(Render(s)), SqlOf(s), at);
    CommandIs(s, at);
  }

  lemma TwoTexts(a: string, b: string)
    ensures TextsOf([Literal(a), Literal(b)]) == Some([a, b])
  {
    var v := [Literal(a), Literal(b)];
    assert v[1..] == [Literal(b)] && [Literal(b)][1..] == [];
    assert TextsOf([]) == Some([]) && [b] + [] == [b];
    assert TextsOf([Literal(b)]) == Some([b]);
    assert [a] + [b] == [a, b];
  }

  lemma StagingCommandsAre(at: nat)
    ensures CommandOf(AddSql(), at) == Some(Add(["nodes", "edges"]))
    ensures CommandOf(HashSql(), at) == Some(Hash("STAGED", "staged_hash"))
  {
    TwoTexts("nodes", "edges");
  }

  // So are the two statements every write ends in.
  lemma AddIsRead(at: nat)
    ensures Decode(StatementTokens(AddTemplate()), at) == Some(Add(["nodes", "edges"]))
  {
    AddText();
    DecodedBy(StatementTokens(AddTemplate()), AddSql(), at);
    StagingCommandsAre(at);
  }

  lemma HashIsRead(at: nat)
    ensures Decode(StatementTokens(HashTemplate()), at) == Some(Hash("STAGED", "staged_hash"))
  {
    HashText();
    DecodedBy(StatementTokens(HashTemplate()), HashSql(), at);
    StagingCommandsAre(at);
  }

  // ---- Whole texts ----

  predicate AllSent(stmts: seq<Statement>, at: nat) { forall k :: 0 <= k < |stmts| ==> Sent(stmts[k], at) }

  function Renders(stmts: seq<Statement>, at: nat): (r: seq<Template>)
    requires AllSent(stmts, at)
    ensures |r| == |stmts|
  {
    if stmts == [] then [] else [Render(stmts[0])] + Renders(stmts[1..], at)
  }

  function SqlTexts(stmts: seq<Statement>, at: nat): (r: seq<string>)
    requires AllSent(stmts, at)
    ensures |r| == |stmts|
  {
    if stmts == [] then [] else [StatementText(Render(stmts[0]))] + SqlTexts(stmts[1..], at)
  }

  function DecodeAll(lists: seq<seq<Token>>, decode: seq<Token> -> Option<Command>): Option<seq<Command>> {
    if lists == [] then Some([])
    else
      var first, rest := decode(lists[0]), DecodeAll(lists[1..], decode);
      if first.Some? && rest.Some? then Some([first.value] + rest.value) else None
  }

  // What the engine makes of a text.
  function Understood(sql: string, at: nat): Option<seq<Command>> {
    match Lex(sql)
    case None => None
    case Some(tokens) => DecodeAll(Statements(tokens), list => Decode(list, at))
  }

  function Writes(stmts: seq<Statement>): (r: seq<Command>)
    ensures |r| == |stmts| && forall k :: 0 <= k < |r| ==> r[k] == Write(stmts[k])
  {
    if stmts == [] then [] else [Write(stmts[0])] + Writes(stmts[1..])
  }

  lemma DecodeCons(first: seq<Token>, rest: seq<seq<Token>>, decode: seq<Token> -> Option<Command>)
    ensures DecodeAll([first] + rest, decode) ==
              if decode(first).Some? && DecodeAll(rest, decode).Some?
              then Some([decode(first).value] + DecodeAll(rest, decode).value) else None
  {
    assert ([first] + rest)[1..] == rest;
  }

  lemma {:induction false} RendersAreStatements(stmts: seq<Statement>, at: nat)
    requires AllSent(stmts, at)
    ensures forall k :: 0 <= k < |stmts| ==> IsStatement(Renders(stmts, at)[k])
  {
    if stmts != [] {
      RendersAreStatements(stmts[1..], at);
      RenderIsStatement(stmts[0]);
    }
  }

  // The templates of a write: its statements, and the two it ends in.
  function Staging(): seq<Template> { [AddTemplate()] + [HashTemplate()] }

  function StagingCommands(): seq<Command> { [Add(["nodes", "edges"])] + [Hash("STAGED", "staged_hash")] }

  lemma TokenListsCons(t: Template, rest: seq<Template>)
    ensures TokenLists([t] + rest) == [StatementTokens(t)] + TokenLists(rest)
  {
    assert ([t] + rest)[1..] == rest;
  }

  // A decoder that reads each printed statement, and the staging, as what it is.
  ghost predicate Decodes(decode: seq<Token> -> Option<Command>, at: nat) {
    && (forall s: Statement :: Sent(s, at) ==> decode(StatementTokens(Render(s))) == Some(Write(s)))
    && decode(StatementTokens(AddTemplate())) == Some(Add(["nodes", "edges"]))
    && decode(StatementTokens(HashTemplate())) == Some(Hash("STAGED", "staged_hash"))
  }

  lemma RendersDecode(at: nat)
    ensures forall s: Statement :: Sent(s, at) ==> Decode(StatementTokens(Render(s)), at) == Some(Write(s))
  {
    forall s: Statement | Sent(s, at) ensures Decode(StatementTokens(Render(s)), at) == Some(Write(s)) {
      RenderIsRead(s, at);
    }
  }

  lemma DecodeDecodes(at: nat)
    ensures Decodes(list => Decode(list, at), at)
  {
    RendersDecode(at);
    AddIsRead(at);
    HashIsRead(at);
  }

  lemma DecodeTwo(a: seq<Token>, b: seq<Token>, x: Command, y: Command, decode: seq<Token> -> Option<Command>)
    requires decode(a) == Some(x) && decode(b) == Some(y)
    ensures DecodeAll([a] + [b], decode) == Some([x] + [y])
  {
    DecodeCons(a, [b], decode);
    DecodeCons(b, [], decode);
    assert [b] + [] == [b] && [y] + [] == [y];
  }

  lemma TwoLists(a: Template, b: Template)
    ensures TokenLists([a] + [b]) == [StatementTokens(a)] + [StatementTokens(b)]
  {
    TokenListsCons(a, [b]);
    TokenListsCons(b, []);
    assert [b] + [] == [b];
    assert [StatementTokens(b)] + [] == [StatementTokens(b)];
  }

  lemma StagingIsDecoded(decode: seq<Token> -> Option<Command>, at: nat)
    requires Decodes(decode, at)
    ensures DecodeAll(TokenLists(Staging()), decode) == Some(StagingCommands())
  {
    TwoLists(AddTemplate(), HashTemplate());
    DecodeTwo(StatementTokens(AddTemplate()), StatementTokens(HashTemplate()),
              Add(["nodes", "edges"]), Hash("STAGED", "staged_hash"), decode);
  }

  lemma {:induction false} DecodeConcat(a: seq<seq<Token>>, b: seq<seq<Token>>, decode: seq<Token> -> Option<Command>)
    requires DecodeAll(a, decode).Some? && DecodeAll(b, decode).Some?
    ensures DecodeAll(a + b, decode) == Some(DecodeAll(a, decode).value + DecodeAll(b, decode).value)
  {
    if a == [] {
      assert a + b == b;
      assert [] + DecodeAll(b, decode).value == DecodeAll(b, decode).value;
    } else {
      DecodeConcat(a[1..], b, decode);
      assert a + b == [a[0]] + (a[1..] + b);
      DecodeCons(a[0], a[1..] + b, decode);
      Assoc([decode(a[0]).value], DecodeAll(a[1..], decode).value, DecodeAll(b, decode).value);
    }
  }

  lemma {:induction false} TokenListsConcat(a: seq<Template>, b: seq<Template>)
    ensures TokenLists(a + b) == TokenLists(a) + TokenLists(b)
  {
    if a == [] {
      assert a + b == b;
    } else {
      TokenListsConcat(a[1..], b);
      assert a + b == [a[0]] + (a[1..] + b);
      TokenListsCons(a[0], a[1..] + b);
      Assoc([StatementTokens(a[0])], TokenLists(a[1..]), TokenLists(b));
    }
  }

  lemma {:induction false} RendersAreRead(stmts: seq<Statement>, decode: seq<Token> -> Option<Command>, at: nat)
    requires AllSent(stmts, at) && Decodes(decode, at)
    ensures DecodeAll(TokenLists(Renders(stmts, at)), decode) == Some(Writes(stmts))
  {
    if stmts != [] {
      var first, rest := stmts[0], stmts[1..];
      RendersAreRead(rest, decode, at);
      assert Sent(first, at);
      TokenListsCons(Render(first), Renders(rest, at));
      DecodeCons(StatementTokens(Render(first)), TokenLists(Renders(rest, at)), decode);
    }
  }

  lemma WriteIsDecoded(stmts: seq<Statement>, decode: seq<Token> -> Option<Command>, at: nat)
    requires AllSent(stmts, at) && Decodes(decode, at)
    ensures DecodeAll(TokenLists(Renders(stmts, at) + Staging()), decode) == Some(Writes(stmts) + StagingCommands())
  {
    RendersAreRead(stmts, decode, at);
    StagingIsDecoded(decode, at);
    TokenListsConcat(Renders(stmts, at), Staging());
    DecodeConcat(TokenLists(Renders(stmts, at)), TokenLists(Staging()), decode);
  }

  // `staging_write`: the statement, or the batch, and the two statements after it.
  function StagingWrite(sql: string): string { sql + StagingText() }

  lemma {:induction false} TextsWithStaging(stmts: seq<Statement>, at: nat)
    requires AllSent(stmts, at) && stmts != []
    ensures Join(Texts(Renders(stmts, at) + Staging()), "\n") == StagingWrite(Join(SqlTexts(stmts, at), "\n"))
  {
    var first, all := StatementText(Render(stmts[0])), Renders(stmts, at) + Staging();
    var rest := Renders(stmts[1..], at) + Staging();
    assert all == [Render(stmts[0])] + rest;
    assert all[1..] == rest;
    assert Texts(all) == [first] + Texts(rest) && Texts(all)[1..] == Texts(rest);
    if |stmts| == 1 {
      assert rest == Staging();
      StagingJoined();
      Assoc(first, "\n", Join(Texts(rest), "\n"));
      assert SqlTexts(stmts, at) == [first];
    } else {
      TextsWithStaging(stmts[1..], at);
      assert SqlTexts(stmts, at)[1..] == SqlTexts(stmts[1..], at);
      Assoc(first + "\n", Join(SqlTexts(stmts[1..], at), "\n"), StagingText());
    }
  }

  lemma StagingJoined()
    ensures "\n" + Join(Texts(Staging()), "\n") == StagingText()
  {
    var add, hash := StatementText(AddTemplate()), StatementText(HashTemplate());
    assert Staging()[1..] == [HashTemplate()] && [HashTemplate()][1..] == [];
    assert Texts(Staging()) == [add] + Texts([HashTemplate()]) && Texts([HashTemplate()]) == [hash];
    assert Texts(Staging())[1..] == [hash];
    Assoc("\n", add + "\n", hash);
    Assoc("\n", add, "\n");
  }

  lemma AllAreStatements(stmts: seq<Statement>, at: nat)
    requires AllSent(stmts, at)
    ensures forall k :: 0 <= k < |stmts| + 2 ==> IsStatement((Renders(stmts, at) + Staging())[k])
  {
    RendersAreStatements(stmts, at);
    AddIsStatement();
    HashIsStatement();
    assert Staging()[0] == AddTemplate() && Staging()[1] == HashTemplate();
  }

  lemma UnderstoodBy(sql: string, lists: seq<seq<Token>>, at: nat)
    requires Lex(sql).Some? && Statements(Lex(sql).value) == lists
    ensures Understood(sql, at) == DecodeAll(lists, list => Decode(list, at))
  {
  }

  // A write as it is sent, a batch of printed statements joined by newlines and then the staging,
  // is understood as those statements, the staging of quizdom's two tables, and the question
  // what is staged.
  lemma WriteIsUnderstood(stmts: seq<Statement>, at: nat)
    requires AllSent(stmts, at) && stmts != []
    ensures Understood(StagingWrite(Join(SqlTexts(stmts, at), "\n")), at) == Some(Writes(stmts) + StagingCommands())
  {
    var all := Renders(stmts, at) + Staging();
    TextsWithStaging(stmts, at);
    AllAreStatements(stmts, at);
    BatchIsItsStatements(all);
    DecodeDecodes(at);
    WriteIsDecoded(stmts, list => Decode(list, at), at);
    UnderstoodBy(Join(Texts(all), "\n"), TokenLists(all), at);
  }

  // A text that is a batch of printed statements.
  predicate IsBatch(sql: string, at: nat, stmts: seq<Statement>) {
    stmts != [] && AllSent(stmts, at) && sql == Join(SqlTexts(stmts, at), "\n")
  }

  lemma BatchIsUnderstood(sql: string, at: nat, stmts: seq<Statement>)
    requires IsBatch(sql, at, stmts)
    ensures Understood(StagingWrite(sql), at) == Some(Writes(stmts) + StagingCommands())
  {
    WriteIsUnderstood(stmts, at);
  }

  lemma OneText(s: Statement, at: nat)
    requires Sent(s, at)
    ensures IsBatch(StatementText(Render(s)), at, [s])
  {
    assert SqlTexts([s], at) == [StatementText(Render(s))];
  }

  // The batched re-weight as `update_weights` prints it.
  lemma CaseTextIsBatch(arms: seq<Arm>, at: nat)
    requires arms != []
    ensures IsBatch(CaseText(arms), at, [CaseUpdate(arms)])
  {
    CaseTextIsRendered(arms);
    OneText(CaseUpdate(arms), at);
  }

  lemma CaseTextIsUnderstood(arms: seq<Arm>, at: nat)
    requires arms != []
    ensures Understood(StagingWrite(CaseText(arms)), at) == Some(Writes([CaseUpdate(arms)]) + StagingCommands())
  {
    CaseTextIsBatch(arms, at);
    WriteIsUnderstood([CaseUpdate(arms)], at);
  }
}
