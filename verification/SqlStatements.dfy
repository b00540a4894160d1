/** The statements quizdom prints, as text, and how long the text gets. */
module SqlStatements {
  import opened Text
  import opened Tables
  import opened Chunking
  import opened SqlText

  // No re-weight carries more than a `u32`.
  const U32_RANGE: nat := 0x1_0000_0000

  function NodeKindName(kind: NodeKind): string {
    match kind case Question => "question" case Term => "term" case Belief => "belief"
  }

  function EdgeKindName(kind: EdgeKind): string {
    match kind
    case Begets => "begets"
    case Probes => "probes"
    case Refines => "refines"
    case Contradicts => "contradicts"
    case Agrees => "agrees"
    case Disagrees => "disagrees"
  }

  const NODE_COLUMN_LIST := "id, kind, title, " + "body, tags, weight"
  const EDGE_COLUMN_LIST := "from_id, to_id, kind"

  const INSERT_NODE := "INSERT INTO nodes (" + (NODE_COLUMN_LIST + ") VALUES (")
  const UPDATE_KIND := ") ON DUPLICATE " + "KEY UPDATE kind = "
  const INSERT_EDGE := "INSERT INTO edges (" + (EDGE_COLUMN_LIST + ") VALUES (")
  const IGNORE_EDGE := "INSERT IGNORE INTO edges (" + (EDGE_COLUMN_LIST + ") VALUES (")
  const UPDATE_TAGS := "UPDATE nodes SET tags = "

  function RowFields(id: string, node: Node): seq<Field> {
    [Field(INSERT_NODE, id), Field(", ", NodeKindName(node.kind)), Field(", ", node.title),
     Field(", ", node.body), Field(", ", node.tags)]
  }

  function InsertTemplate(id: string, node: Node): Template {
    Template(RowFields(id, node), ", " + Decimal(node.weight) + ")")
  }

  function UpsertTemplate(id: string, node: Node): Template {
    var weight := Decimal(node.weight);
    Template(
      RowFields(id, node) +
      [Field(", " + weight + UPDATE_KIND, NodeKindName(node.kind)), Field(", title = ", node.title),
       Field(", body = ", node.body), Field(", tags = ", node.tags)],
      ", weight = " + weight)
  }

  function EdgeTemplate(insert: string, e: Edge): Template {
    Template([Field(insert, e.from), Field(", ", e.to), Field(", ", EdgeKindName(e.kind))], ")")
  }

  function UpdateTemplate(id: string, weight: nat, tags: string): Template {
    Template([Field(UPDATE_TAGS, tags), Field(", weight = " + Decimal(weight) + " WHERE id = ", id)], "")
  }

  // The arms of the batched re-weight, as fields. The text after one literal opens the next.
  function TagFields(arms: seq<Arm>, open: string): (r: seq<Field>)
    ensures |r| == 2 * |arms|
  {
    if arms == [] then []
    else [Field(open + " WHEN ", arms[0].id), Field(" THEN ", arms[0].tags)] + TagFields(arms[1..], "")
  }

  function WeightFields(arms: seq<Arm>, open: string): (r: seq<Field>)
    ensures |r| == |arms|
  {
    if arms == [] then []
    else [Field(open + " WHEN ", arms[0].id)] + WeightFields(arms[1..], " THEN " + Decimal(arms[0].weight))
  }

  function IdFields(arms: seq<Arm>, open: string): (r: seq<Field>)
    ensures |r| == |arms|
  {
    if arms == [] then [] else [Field(open, arms[0].id)] + IdFields(arms[1..], ", ")
  }

  function LastWeight(arms: seq<Arm>): string
    requires arms != []
  {
    " THEN " + Decimal(arms[|arms| - 1].weight)
  }

  function CaseTemplate(arms: seq<Arm>): Template
    requires arms != []
  {
    Template(TagFields(arms, CASE_TAGS) + WeightFields(arms, CASE_WEIGHTS) + IdFields(arms, LastWeight(arms) + CASE_IDS), ")")
  }

  // What each statement is printed as. A batched re-weight of nothing is never printed.
  function Render(s: Statement): Template
    requires s.CaseUpdate? ==> s.arms != []
  {
    match s
    case InsertNode(id, node) => InsertTemplate(id, node)
    case UpsertNode(id, node) => UpsertTemplate(id, node)
    case InsertEdge(edge, _) => EdgeTemplate(INSERT_EDGE, edge)
    case InsertIgnoreEdge(edge, _) => EdgeTemplate(IGNORE_EDGE, edge)
    case UpdateNode(id, weight, tags) => UpdateTemplate(id, weight, tags)
    case CaseUpdate(arms) => CaseTemplate(arms)
  }

  lemma DecimalIsPlain(n: nat)
    ensures PlainText(Decimal(n))
  {
    DecimalRoundTrip(n);
  }

  lemma PlainConcat(a: string, b: string)
    requires PlainText(a) && PlainText(b)
    ensures PlainText(a + b)
  {
  }

  lemma FixedTextsArePlain()
    ensures PlainText(INSERT_NODE) && INSERT_NODE[0] != '\n'
    ensures PlainText(UPDATE_KIND)
  {
    assert PlainText(") VALUES (");
    PlainConcat("id, kind, title, ", "body, tags, weight");
    PlainConcat(NODE_COLUMN_LIST, ") VALUES (");
    PlainConcat("INSERT INTO nodes (", NODE_COLUMN_LIST + ") VALUES (");
    PlainConcat(") ON DUPLICATE ", "KEY UPDATE kind = ");
  }

  lemma SeparatorsArePlain()
    ensures PlainText(", ") && PlainText(", title = ") && PlainText(", body = ") && PlainText(", tags = ")
    ensures PlainText(", weight = ") && PlainText(" WHERE id = ") && PlainText(")")
  {
  }

  lemma EdgeTextsArePlain()
    ensures PlainText(INSERT_EDGE) && INSERT_EDGE[0] != '\n' && PlainText(IGNORE_EDGE) && IGNORE_EDGE[0] != '\n'
  {
    assert PlainText(") VALUES (") && PlainText(EDGE_COLUMN_LIST);
    PlainConcat(EDGE_COLUMN_LIST, ") VALUES (");
    PlainConcat("INSERT INTO edges (", EDGE_COLUMN_LIST + ") VALUES (");
    PlainConcat("INSERT IGNORE INTO edges (", EDGE_COLUMN_LIST + ") VALUES (");
  }

  lemma NumberedIsPlain(before: string, n: nat, after: string)
    requires PlainText(before) && PlainText(after)
    ensures PlainText(before + Decimal(n)) && PlainText(before + Decimal(n) + after)
  {
    DecimalIsPlain(n);
    PlainConcat(before, Decimal(n));
    PlainConcat(before + Decimal(n), after);
  }

  predicate PlainLeads(fields: seq<Field>) { forall k :: 0 <= k < |fields| ==> PlainText(fields[k].lead) }

  lemma RowIsPlain(id: string, node: Node)
    ensures PlainLeads(RowFields(id, node))
  {
    FixedTextsArePlain();
    SeparatorsArePlain();
  }

  lemma InsertIsStatement(id: string, node: Node)
    ensures IsStatement(InsertTemplate(id, node))
  {
    FixedTextsArePlain();
    SeparatorsArePlain();
    RowIsPlain(id, node);
    NumberedIsPlain(", ", node.weight, ")");
  }

  // The printed migration statements are ones the engine reads back exactly.
  lemma UpsertIsStatement(id: string, node: Node)
    ensures IsStatement(UpsertTemplate(id, node))
  {
    var weight, t := Decimal(node.weight), UpsertTemplate(id, node);
    FixedTextsArePlain();
    SeparatorsArePlain();
    RowIsPlain(id, node);
    NumberedIsPlain(", ", node.weight, UPDATE_KIND);
    NumberedIsPlain(", weight = ", node.weight, UPDATE_KIND);
    forall k | 0 <= k < |t.fields| ensures PlainText(t.fields[k].lead) {
      if k < 5 { assert t.fields[k] == RowFields(id, node)[k]; }
    }
  }

  lemma EdgeIsStatement(insert: string, e: Edge)
    requires PlainText(insert) && insert[0] != '\n'
    ensures IsStatement(EdgeTemplate(insert, e))
  {
    SeparatorsArePlain();
  }

  lemma UpdateIsStatement(id: string, weight: nat, tags: string)
    ensures IsStatement(UpdateTemplate(id, weight, tags))
  {
    SeparatorsArePlain();
    NumberedIsPlain(", weight = ", weight, " WHERE id = ");
    assert PlainText(UPDATE_TAGS);
  }

  lemma CaseTextsArePlain()
    ensures PlainText(CASE_TAGS) && PlainText(CASE_WEIGHTS) && PlainText(CASE_IDS) && CASE_TAGS[0] != '\n'
  {
    assert PlainText(UPDATE_TAGS) && PlainText("CASE id");
    PlainConcat(UPDATE_TAGS, "CASE id");
  }

  lemma ArmTextsArePlain()
    ensures PlainText(" WHEN ") && PlainText(" THEN ")
  {
  }

  lemma {:induction false} TagsArePlain(arms: seq<Arm>, open: string)
    requires open == "" || PlainText(open)
    ensures PlainLeads(TagFields(arms, open))
  {
    ArmTextsArePlain();
    if open == "" { assert open + " WHEN " == " WHEN "; } else { PlainConcat(open, " WHEN "); }
    if arms != [] { TagsArePlain(arms[1..], ""); }
  }

  lemma {:induction false} WeightsArePlain(arms: seq<Arm>, open: string)
    requires PlainText(open)
    ensures PlainLeads(WeightFields(arms, open))
  {
    ArmTextsArePlain();
    PlainConcat(open, " WHEN ");
    if arms != [] {
      NumberedIsPlain(" THEN ", arms[0].weight, " WHEN ");
      WeightsArePlain(arms[1..], " THEN " + Decimal(arms[0].weight));
    }
  }

  lemma {:induction false} IdsArePlain(arms: seq<Arm>, open: string)
    requires PlainText(open)
    ensures PlainLeads(IdFields(arms, open))
  {
    if arms != [] {
      SeparatorsArePlain();
      IdsArePlain(arms[1..], ", ");
    }
  }

  lemma PlainLeadsConcat(a: seq<Field>, b: seq<Field>)
    requires PlainLeads(a) && PlainLeads(b)
    ensures PlainLeads(a + b)
  {
  }

  lemma CaseIsStatement(arms: seq<Arm>)
    requires arms != []
    ensures IsStatement(CaseTemplate(arms))
  {
    var tags, weights := TagFields(arms, CASE_TAGS), WeightFields(arms, CASE_WEIGHTS);
    var ids := IdFields(arms, LastWeight(arms) + CASE_IDS);
    CaseTextsArePlain();
    ArmTextsArePlain();
    SeparatorsArePlain();
    TagsArePlain(arms, CASE_TAGS);
    WeightsArePlain(arms, CASE_WEIGHTS);
    NumberedIsPlain(" THEN ", arms[|arms| - 1].weight, CASE_IDS);
    IdsArePlain(arms, LastWeight(arms) + CASE_IDS);
    PlainLeadsConcat(tags, weights);
    PlainLeadsConcat(tags + weights, ids);
    assert CaseTemplate(arms).fields[0].lead == CASE_TAGS + " WHEN ";
  }

  // So is every statement quizdom prints.
  lemma RenderIsStatement(s: Statement)
    requires s.CaseUpdate? ==> s.arms != []
    ensures IsStatement(Render(s))
  {
    match s
    case InsertNode(id, node) => InsertIsStatement(id, node);
    case UpsertNode(id, node) => UpsertIsStatement(id, node);
    case InsertEdge(edge, _) => EdgeTextsArePlain(); EdgeIsStatement(INSERT_EDGE, edge);
    case InsertIgnoreEdge(edge, _) => EdgeTextsArePlain(); EdgeIsStatement(IGNORE_EDGE, edge);
    case UpdateNode(id, weight, tags) => UpdateIsStatement(id, weight, tags);
    case CaseUpdate(arms) => CaseIsStatement(arms);
  }

  // ---- The batched re-weight ----

  function TagArm(arm: Arm): string { " WHEN " + Quoted(arm.id) + " THEN " + Quoted(arm.tags) }

  function WeightArm(arm: Arm): string { " WHEN " + Quoted(arm.id) + " THEN " + Decimal(arm.weight) }

  // What the chunker charges a row.
  function ArmBytes(arm: Arm): nat {
    ByteLen(TagArm(arm)) + ByteLen(WeightArm(arm)) + ByteLen(Quoted(arm.id)) + 2
  }

  function TagArms(arms: seq<Arm>): string { if arms == [] then "" else TagArm(arms[0]) + TagArms(arms[1..]) }

  function WeightArms(arms: seq<Arm>): string { if arms == [] then "" else WeightArm(arms[0]) + WeightArms(arms[1..]) }

  function ArmIds(arms: seq<Arm>): (r: seq<string>)
    ensures |r| == |arms|
  {
    if arms == [] then [] else [arms[0].id] + ArmIds(arms[1..])
  }

  const CASE_TAGS := UPDATE_TAGS + "CASE id"
  const CASE_WEIGHTS := " END, weight = CASE id"
  const CASE_IDS := " END WHERE id IN ("
  const CASE_END := ");"

  function CaseText(arms: seq<Arm>): string {
    CASE_TAGS + TagArms(arms) + CASE_WEIGHTS + WeightArms(arms) + CASE_IDS + SqlIdList(ArmIds(arms)) + CASE_END
  }

  // The text is the template's: what is proved of templates holds of it.
  lemma CaseTextIsRendered(arms: seq<Arm>)
    requires arms != []
    ensures CaseText(arms) == StatementText(CaseTemplate(arms))
  {
    var tags, weights := TagFields(arms, CASE_TAGS), WeightFields(arms, CASE_WEIGHTS);
    var last := LastWeight(arms);
    var ids := IdFields(arms, last + CASE_IDS);
    PrintConcat(tags, weights + ids, ")");
    PrintConcat(weights, ids, ")");
    assert tags + (weights + ids) == tags + weights + ids;
    PrintTags(arms, CASE_TAGS);
    PrintWeights(arms, CASE_WEIGHTS);
    PrintIds(arms, last + CASE_IDS);
    PrintTail(ids, ")");
    RegroupCase(TagArms(arms), Print(weights, ""), last, WeightArms(arms), SqlIdList(ArmIds(arms)));
  }

  lemma RegroupCase(tags: string, printed: string, last: string, weights: string, ids: string)
    requires printed + last == CASE_WEIGHTS + weights
    ensures CASE_TAGS + tags + (printed + ((last + CASE_IDS) + ids + ")")) + ";"
         == CASE_TAGS + tags + CASE_WEIGHTS + weights + CASE_IDS + ids + CASE_END
  {
    var rest := CASE_IDS + (ids + CASE_END);
    assert printed + ((last + CASE_IDS) + ids + ")") + ";" == (printed + last) + rest;
    assert CASE_TAGS + tags + ((CASE_WEIGHTS + weights) + rest)
        == CASE_TAGS + tags + CASE_WEIGHTS + weights + CASE_IDS + ids + CASE_END;
  }

  lemma PrintCons(f: Field, rest: seq<Field>, tail: string)
    ensures Print([f] + rest, tail) == f.lead + Quoted(f.value) + Print(rest, tail)
  {
    assert ([f] + rest)[1..] == rest;
  }

  lemma PrintTwo(f: Field, g: Field, rest: seq<Field>, tail: string)
    ensures Print([f, g] + rest, tail) == f.lead + Quoted(f.value) + (g.lead + Quoted(g.value) + Print(rest, tail))
  {
    assert [f, g] + rest == [f] + ([g] + rest);
    PrintCons(f, [g] + rest, tail);
    PrintCons(g, rest, tail);
  }

  lemma PrintStep(f: Field, rest: seq<Field>, b: seq<Field>, tail: string)
    requires Print(rest + b, tail) == Print(rest, "") + Print(b, tail)
    ensures Print([f] + (rest + b), tail) == Print([f] + rest, "") + Print(b, tail)
  {
    PrintCons(f, rest + b, tail);
    PrintCons(f, rest, "");
    Assoc(f.lead + Quoted(f.value), Print(rest, ""), Print(b, tail));
  }

  lemma {:induction false} PrintConcat(a: seq<Field>, b: seq<Field>, tail: string)
    ensures Print(a + b, tail) == Print(a, "") + Print(b, tail)
  {
    if a == [] {
      assert a + b == b;
    } else {
      PrintConcat(a[1..], b, tail);
      PrintStep(a[0], a[1..], b, tail);
      assert a + b == [a[0]] + (a[1..] + b);
      assert a == [a[0]] + a[1..];
    }
  }

  lemma PrintTail(a: seq<Field>, tail: string)
    ensures Print(a, tail) == Print(a, "") + tail
  {
    PrintConcat(a, [], tail);
    assert a + [] == a;
  }

  lemma AroundArm(open: string, when: string, id: string, next: string, value: string, rest: string)
    ensures open + when + id + (next + value + rest) == open + (when + id + next + value + rest)
    ensures open + when + id + (next + value) == open + (when + id + next + value)
  {
  }

  lemma {:induction false} PrintTags(arms: seq<Arm>, open: string)
    ensures arms != [] ==> Print(TagFields(arms, open), "") == open + TagArms(arms)
    ensures arms == [] ==> Print(TagFields(arms, open), "") == ""
  {
    if arms != [] {
      var more := TagFields(arms[1..], "");
      var f, g := Field(open + " WHEN ", arms[0].id), Field(" THEN ", arms[0].tags);
      PrintTags(arms[1..], "");
      assert "" + TagArms(arms[1..]) == TagArms(arms[1..]);
      PrintTwo(f, g, more, "");
      AroundArm(open, " WHEN ", Quoted(arms[0].id), " THEN ", Quoted(arms[0].tags), TagArms(arms[1..]));
    }
  }

  lemma {:induction false} PrintWeights(arms: seq<Arm>, open: string)
    requires arms != []
    ensures Print(WeightFields(arms, open), "") + LastWeight(arms) == open + WeightArms(arms)
  {
    var f, next := Field(open + " WHEN ", arms[0].id), " THEN " + Decimal(arms[0].weight);
    var more := WeightFields(arms[1..], next);
    PrintCons(f, more, "");
    Assoc(f.lead + Quoted(f.value), Print(more, ""), LastWeight(arms));
    AroundArm(open, " WHEN ", Quoted(arms[0].id), " THEN ", Decimal(arms[0].weight), WeightArms(arms[1..]));
    if |arms| > 1 {
      PrintWeights(arms[1..], next);
    } else {
      assert WeightArms(arms[1..]) == "" && Print(more, "") == "";
      assert WeightArm(arms[0]) + "" == WeightArm(arms[0]);
      assert "" + LastWeight(arms) == next;
    }
  }

  lemma {:induction false} PrintIds(arms: seq<Arm>, open: string)
    requires arms != []
    ensures Print(IdFields(arms, open), "") == open + SqlIdList(ArmIds(arms))
  {
    var f, more := Field(open, arms[0].id), IdFields(arms[1..], ", ");
    PrintCons(f, more, "");
    SqlIdListCons(ArmIds(arms));
    assert ArmIds(arms)[1..] == ArmIds(arms[1..]);
    if |arms| > 1 {
      PrintIds(arms[1..], ", ");
      Assoc(open, Quoted(arms[0].id), ", " + SqlIdList(ArmIds(arms[1..])));
      Assoc(Quoted(arms[0].id), ", ", SqlIdList(ArmIds(arms[1..])));
    } else {
      assert open + Quoted(arms[0].id) + "" == open + Quoted(arms[0].id);
    }
  }

  // The bytes of the statement's fixed text, less the separator no id follows.
  function CaseOverhead(): int {
    ByteLen(CASE_TAGS) + ByteLen(CASE_WEIGHTS) + ByteLen(CASE_IDS) + ByteLen(CASE_END) - 2
  }

  // What `staging_write` puts after a statement: the staging, and the question what is staged.
  function AddTemplate(): Template { Template([Field("CALL DOLT_ADD(", "nodes"), Field(", ", "edges")], ")") }

  function HashTemplate(): Template { Template([Field("SELECT DOLT_HASHOF_DB(", "STAGED")], ") AS staged_hash") }

  function StagingText(): string { "\n" + StatementText(AddTemplate()) + "\n" + StatementText(HashTemplate()) }

  lemma AddIsStatement()
    ensures IsStatement(AddTemplate())
  {
    SeparatorsArePlain();
    assert PlainText("CALL DOLT_ADD(");
  }

  lemma HashIsStatement()
    ensures IsStatement(HashTemplate())
  {
    HashTextsArePlain();
  }

  lemma HashTextsArePlain()
    ensures PlainText(") AS staged_hash")
    ensures PlainText("SELECT DOLT_HASHOF_DB(") && "SELECT DOLT_HASHOF_DB("[0] == 'S'
  {
    assert "SELECT DOLT_HASHOF_DB(" == "SELECT " + "DOLT_HASHOF_DB(";
    assert PlainText("SELECT ") && PlainText("DOLT_HASHOF_DB(");
    PlainConcat("SELECT ", "DOLT_HASHOF_DB(");
  }

  // An id list one id longer.
  lemma IdListOneMore(ids: seq<string>)
    requires |ids| > 1
    ensures ByteLen(SqlIdList(ids)) == ByteLen(Quoted(ids[0])) + 2 + ByteLen(SqlIdList(ids[1..]))
  {
    SqlIdListCons(ids);
    ByteLenConcat(Quoted(ids[0]) + ", ", SqlIdList(ids[1..]));
    ByteLenConcat(Quoted(ids[0]), ", ");
    PlainBytes(", ");
  }

  lemma {:induction false} ArmTextBytes(arms: seq<Arm>)
    requires arms != []
    ensures ByteLen(TagArms(arms)) + ByteLen(WeightArms(arms)) + ByteLen(SqlIdList(ArmIds(arms))) + 2
         == Total(arms, ArmBytes)
  {
    var arm, tail := arms[0], arms[1..];
    ByteLenConcat(TagArm(arm), TagArms(tail));
    ByteLenConcat(WeightArm(arm), WeightArms(tail));
    assert ArmIds(arms)[1..] == ArmIds(tail);
    if tail != [] {
      ArmTextBytes(tail);
      IdListOneMore(ArmIds(arms));
    } else {
      SqlIdListCons(ArmIds(arms));
    }
  }

  lemma {:induction false} PlainBytes(s: string)
    requires forall k :: 0 <= k < |s| ==> s[k] as int < 0x80
    ensures ByteLen(s) == |s|
  {
    if s != "" { PlainBytes(s[1..]); }
  }

  // The bytes charged are the bytes printed, but for a constant.
  lemma CaseBytes(arms: seq<Arm>)
    requires arms != []
    ensures ByteLen(CaseText(arms)) == CaseOverhead() + Total(arms, ArmBytes)
  {
    Concat7(CASE_TAGS, TagArms(arms), CASE_WEIGHTS, WeightArms(arms), CASE_IDS, SqlIdList(ArmIds(arms)), CASE_END);
    ArmTextBytes(arms);
  }

  lemma Concat7(a: string, b: string, c: string, d: string, e: string, f: string, g: string)
    ensures ByteLen(a + b + c + d + e + f + g)
         == ByteLen(a) + ByteLen(b) + ByteLen(c) + ByteLen(d) + ByteLen(e) + ByteLen(f) + ByteLen(g)
  {
    ByteLenConcat(a, b);
    ByteLenConcat(a + b, c);
    ByteLenConcat(a + b + c, d);
    ByteLenConcat(a + b + c + d, e);
    ByteLenConcat(a + b + c + d + e, f);
    ByteLenConcat(a + b + c + d + e + f, g);
  }

  lemma {:induction false} EscapedBytes(s: string)
    ensures ByteLen(Escaped(s)) <= 4 * |s|
  {
    if s != "" {
      EscapedBytes(s[1..]);
      ByteLenConcat(EscapedChar(s[0]), Escaped(s[1..]));
      PlainBytes("''");
      PlainBytes("\\\\");
      assert [s[0]][1..] == "";
    }
  }

  lemma QuotedBytes(s: string)
    ensures ByteLen(Quoted(s)) <= 4 * |s| + 2
  {
    EscapedBytes(s);
    ByteLenConcat("'", Escaped(s));
    ByteLenConcat("'" + Escaped(s), "'");
    PlainBytes("'");
  }

  // A row within the schema's column widths is far within the budget on its own.
  lemma ArmIsSmall(arm: Arm)
    requires RowWithin(arm)
    ensures ArmBytes(arm) <= SQL_BATCH_BUDGET
  {
    QuotedBytes(arm.id);
    QuotedBytes(arm.tags);
    DecimalBytes(arm.weight);
    assert Pow10(10) == 10_000_000_000 by {
      assert Pow10(5) == 100_000;
      assert Pow10(10) == 10 * (10 * (10 * (10 * (10 * Pow10(5)))));
    }
    DecimalWidth(arm.weight, 10);
    PlainBytes(" WHEN ");
    PlainBytes(" THEN ");
    ByteLenConcat(" WHEN ", Quoted(arm.id));
    ByteLenConcat(" WHEN " + Quoted(arm.id), " THEN ");
    ByteLenConcat(" WHEN " + Quoted(arm.id) + " THEN ", Quoted(arm.tags));
    ByteLenConcat(" WHEN " + Quoted(arm.id) + " THEN ", Decimal(arm.weight));
  }

  predicate RowWithin(arm: Arm) {
    |arm.id| <= 64 && |arm.tags| <= 2048 && arm.weight <= 0xFFFF_FFFF
  }

  lemma ChunkWithinBudget(chunk: seq<Arm>)
    requires Allowed(chunk, ArmBytes, SQL_LIMITS)
    requires forall arm :: arm in chunk ==> RowWithin(arm)
    ensures Total(chunk, ArmBytes) <= SQL_BATCH_BUDGET
  {
    if |chunk| == 1 {
      assert chunk[0] in chunk && chunk[1..] == [];
      ArmIsSmall(chunk[0]);
    }
  }

  lemma OverheadIsSmall()
    ensures CaseOverhead() <= 1000
  {
    ByteLenBounds(CASE_TAGS);
    ByteLenBounds(CASE_WEIGHTS);
    ByteLenBounds(CASE_IDS);
    ByteLenBounds(CASE_END);
    assert |CASE_TAGS| + |CASE_WEIGHTS| + |CASE_IDS| + |CASE_END| < 250;
  }

  lemma AddIsShort()
    ensures ByteLen(StatementText(AddTemplate())) <= 200
  {
    var f := AddTemplate().fields;
    assert f == [f[0]] + ([f[1]] + []);
    PrintCons(f[0], [f[1]], ")");
    PrintCons(f[1], [], ")");
    assert [f[1]] + [] == [f[1]] && f == [f[0]] + [f[1]];
    EscapedIsShort("nodes");
    EscapedIsShort("edges");
    ByteLenBounds(StatementText(AddTemplate()));
  }

  lemma HashIsShort()
    ensures ByteLen(StatementText(HashTemplate())) <= 220
  {
    var f := HashTemplate().fields;
    assert f == [f[0]] + [];
    PrintCons(f[0], [], ") AS staged_hash");
    EscapedIsShort("STAGED");
    ByteLenBounds(StatementText(HashTemplate()));
  }

  lemma {:induction false} EscapedIsShort(s: string)
    ensures |Escaped(s)| <= 2 * |s|
  {
    if s != "" { EscapedIsShort(s[1..]); }
  }

  lemma StagingIsSmall()
    ensures ByteLen(StagingText()) <= 1000
  {
    var add, hash := StatementText(AddTemplate()), StatementText(HashTemplate());
    AddIsShort();
    HashIsShort();
    ByteLenConcat("\n" + add + "\n", hash);
    ByteLenConcat("\n" + add, "\n");
    ByteLenConcat("\n", add);
    PlainBytes("\n");
  }

  // So no chunk of such rows makes an argument of 128 KiB, which the operating system refuses.
  lemma ChunkIsPassable(chunks: seq<seq<Arm>>, k: nat)
    requires Packed(chunks, ArmBytes, SQL_LIMITS) && k < |chunks|
    requires forall arm :: arm in chunks[k] ==> RowWithin(arm)
    ensures ByteLen(CaseText(chunks[k]) + StagingText()) < 131072
  {
    assert Allowed(chunks[k], ArmBytes, SQL_LIMITS);
    ChunkWithinBudget(chunks[k]);
    CaseBytes(chunks[k]);
    OverheadIsSmall();
    StagingIsSmall();
    ByteLenConcat(CaseText(chunks[k]), StagingText());
  }
}
