/** The two quizdom tables and the statements quizdom sends to them (db/schema.sql).

    A statement either succeeds with a new graph or fails and changes nothing.
    The timestamp columns of `nodes` are not modelled: no read selects them. */
module Tables {
  import opened Wrappers

  const MAX_WEIGHT: nat := 100
  const ID_WIDTH: nat := 64
  const TAGS_WIDTH: nat := 2048

  datatype NodeKind = Question | Term | Belief

  datatype EdgeKind = Begets | Probes | Refines | Contradicts | Agrees | Disagrees

  datatype Node = Node(kind: NodeKind, title: string, body: string, tags: string, weight: nat)

  datatype Edge = Edge(from: string, to: string, kind: EdgeKind)

  // `nodes` by primary key; `edges` maps its primary key to `created_at`.
  type NodeTable = map<string, Node>
  type EdgeTable = map<Edge, nat>

  datatype Graph = Graph(nodes: NodeTable, edges: EdgeTable)

  // One row of a batched re-weight: its `WHEN` arms and its `IN` entry.
  datatype Arm = Arm(id: string, weight: nat, tags: string)

  datatype Statement =
    | InsertNode(id: string, node: Node)
    | UpsertNode(id: string, node: Node)
    | InsertEdge(edge: Edge, at: nat)
    | InsertIgnoreEdge(edge: Edge, at: nat)
    | UpdateNode(id: string, weight: nat, tags: string)
    | CaseUpdate(arms: seq<Arm>)

  predicate ReweightFits(weight: nat, tags: string) {
    weight <= MAX_WEIGHT && |tags| <= TAGS_WIDTH
  }

  predicate RowFits(id: string, node: Node) {
    |id| <= ID_WIDTH && ReweightFits(node.weight, node.tags)
  }

  predicate EndpointsExist(g: Graph, e: Edge) {
    e.from in g.nodes && e.to in g.nodes
  }

  function Reweighted(n: Node, weight: nat, tags: string): Node {
    n.(weight := weight, tags := tags)
  }

  predicate HasArm(arms: seq<Arm>, id: string) {
    exists k :: 0 <= k < |arms| && arms[k].id == id
  }

  // `CASE id WHEN ..` takes the first arm naming the row.
  function FirstArm(arms: seq<Arm>, id: string): (arm: Arm)
    requires HasArm(arms, id)
    ensures arm in arms && arm.id == id
  {
    if arms[0].id == id then arms[0] else FirstArm(arms[1..], id)
  }

  predicate CaseFits(g: Graph, arms: seq<Arm>) {
    forall id :: id in g.nodes && HasArm(arms, id) ==>
                   ReweightFits(FirstArm(arms, id).weight, FirstArm(arms, id).tags)
  }

  function CaseRows(nodes: NodeTable, arms: seq<Arm>): NodeTable {
    map id | id in nodes ::
      if HasArm(arms, id)
      then Reweighted(nodes[id], FirstArm(arms, id).weight, FirstArm(arms, id).tags)
      else nodes[id]
  }

  function Exec(g: Graph, s: Statement): Option<Graph> {
    match s
    case InsertNode(id, node) =>
      if id in g.nodes || !RowFits(id, node) then None
      else Some(g.(nodes := g.nodes[id := node]))
    case UpsertNode(id, node) =>
      if !RowFits(id, node) then None
      else Some(g.(nodes := g.nodes[id := node]))
    case InsertEdge(edge, at) =>
      if edge in g.edges || !EndpointsExist(g, edge) then None
      else Some(g.(edges := g.edges[edge := at]))
    case InsertIgnoreEdge(edge, at) =>
      if edge in g.edges || !EndpointsExist(g, edge) then Some(g)
      else Some(g.(edges := g.edges[edge := at]))
    case UpdateNode(id, weight, tags) =>
      if id !in g.nodes then Some(g)
      else if !ReweightFits(weight, tags) then None
      else Some(g.(nodes := g.nodes[id := Reweighted(g.nodes[id], weight, tags)]))
    case CaseUpdate(arms) =>
      if !CaseFits(g, arms) then None
      else Some(g.(nodes := CaseRows(g.nodes, arms)))
  }

  function ExecAll(g: Graph, stmts: seq<Statement>): Option<Graph> {
    if stmts == [] then Some(g)
    else
      match ExecAll(g, stmts[..|stmts| - 1])
      case None => None
      case Some(mid) => Exec(mid, stmts[|stmts| - 1])
  }

  lemma ExecAllAppend(g: Graph, stmts: seq<Statement>, s: Statement)
    ensures ExecAll(g, stmts + [s])
         == match ExecAll(g, stmts) { case None => None case Some(mid) => Exec(mid, s) }
  {
    assert (stmts + [s])[..|stmts|] == stmts;
  }

  lemma {:induction false} ExecAllConcat(g: Graph, a: seq<Statement>, b: seq<Statement>)
    ensures ExecAll(g, a + b)
         == match ExecAll(g, a) { case None => None case Some(mid) => ExecAll(mid, b) }
    decreases |b|
  {
    if b == [] {
      assert a + b == a;
    } else {
      var rest, last := b[..|b| - 1], b[|b| - 1];
      assert a + b == (a + rest) + [last];
      ExecAllConcat(g, a, rest);
      ExecAllAppend(g, a + rest, last);
    }
  }

  // ---- What the schema promises ----

  // The row `now` in place of `was`: the weight and the tags are new, nothing else is.
  ghost predicate OnlyReweighted(was: Node, now: Node, weight: nat, tags: string) {
    && now.weight == weight && now.tags == tags
    && now.kind == was.kind && now.title == was.title && now.body == was.body
  }

  // A re-weight fails only on a row there is, and changes that row alone.
  lemma ReweightIs(g: Graph, id: string, weight: nat, tags: string)
    ensures
      var r := Exec(g, UpdateNode(id, weight, tags));
      && (r.None? <==> id in g.nodes && (weight > 100 || |tags| > 2048))
      && (r.Some? ==>
            && r.value.edges == g.edges && r.value.nodes.Keys == g.nodes.Keys
            && (forall other :: other in g.nodes && other != id ==> r.value.nodes[other] == g.nodes[other])
            && (id in g.nodes ==> OnlyReweighted(g.nodes[id], r.value.nodes[id], weight, tags)))
  {
  }

  // `k` is the first arm naming `id`.
  ghost predicate Leads(arms: seq<Arm>, k: nat, id: string) {
    k < |arms| && arms[k].id == id && forall j :: 0 <= j < k ==> arms[j].id != id
  }

  lemma {:induction false} FirstArmLeads(arms: seq<Arm>, k: nat, id: string)
    requires Leads(arms, k, id)
    ensures HasArm(arms, id) && FirstArm(arms, id) == arms[k]
  {
    if k > 0 { FirstArmLeads(arms[1..], k - 1, id); }
  }

  lemma {:induction false} SomeArmLeads(arms: seq<Arm>, id: string) returns (k: nat)
    requires HasArm(arms, id)
    ensures Leads(arms, k, id)
  {
    k := 0;
    if arms[0].id != id {
      k := SomeArmLeads(arms[1..], id);
      k := k + 1;
    }
  }

  // One `CASE` update fails as a whole, on any row the table would not take, and re-weights each
  // row by the first arm naming it.
  lemma CaseUpdateIs(g: Graph, arms: seq<Arm>)
    ensures
      var r := Exec(g, CaseUpdate(arms));
      && (r.None? <==> exists k: nat :: k < |arms| && Leads(arms, k, arms[k].id) && arms[k].id in g.nodes
                                        && (arms[k].weight > 100 || |arms[k].tags| > 2048))
      && (r.Some? ==>
            && r.value.edges == g.edges && r.value.nodes.Keys == g.nodes.Keys
            && (forall k: nat :: k < |arms| && Leads(arms, k, arms[k].id) && arms[k].id in g.nodes ==>
                  OnlyReweighted(g.nodes[arms[k].id], r.value.nodes[arms[k].id], arms[k].weight, arms[k].tags))
            && (forall id :: id in g.nodes && (forall k :: 0 <= k < |arms| ==> arms[k].id != id) ==>
                  r.value.nodes[id] == g.nodes[id]))
  {
    forall k: nat | k < |arms| && Leads(arms, k, arms[k].id) ensures FirstArm(arms, arms[k].id) == arms[k] {
      FirstArmLeads(arms, k, arms[k].id);
    }
    forall id | id in g.nodes && HasArm(arms, id)
      ensures exists k: nat :: k < |arms| && Leads(arms, k, arms[k].id) && arms[k] == FirstArm(arms, id)
    {
      var k := SomeArmLeads(arms, id);
    }
  }

  // An insert needs a new id; an upsert replaces the row. Neither takes one the table would not.
  lemma InsertIs(g: Graph, id: string, node: Node)
    ensures
      var bad := |id| > 64 || node.weight > 100 || |node.tags| > 2048;
      && (Exec(g, InsertNode(id, node)).None? <==> bad || id in g.nodes)
      && (Exec(g, UpsertNode(id, node)).None? <==> bad)
      && (forall s :: s == InsertNode(id, node) || s == UpsertNode(id, node) ==>
            Exec(g, s).Some? ==> Exec(g, s).value.edges == g.edges && Exec(g, s).value.nodes == g.nodes[id := node])
  {
  }

  // An edge needs both its ends. The one insert fails where the other changes nothing.
  lemma InsertEdgeIs(g: Graph, edge: Edge, at: nat)
    ensures
      var bad := edge in g.edges || edge.from !in g.nodes || edge.to !in g.nodes;
      var more := Graph(g.nodes, g.edges[edge := at]);
      && Exec(g, InsertEdge(edge, at)) == (if bad then None else Some(more))
      && Exec(g, InsertIgnoreEdge(edge, at)) == Some(if bad then g else more)
  {
  }

  // What `schema.sql` says of the rows.
  ghost predicate MeetsSchema(g: Graph) {
    && (forall id :: id in g.nodes ==> |id| <= 64 && g.nodes[id].weight <= 100 && |g.nodes[id].tags| <= 2048)
    && (forall e :: e in g.edges ==> e.from in g.nodes && e.to in g.nodes)
  }

  ghost predicate KeepsRows(g: Graph, after: Graph) {
    g.nodes.Keys <= after.nodes.Keys && g.edges.Keys <= after.edges.Keys
  }

  lemma CaseKeepsSchema(g: Graph, arms: seq<Arm>)
    requires MeetsSchema(g) && CaseFits(g, arms)
    ensures MeetsSchema(g.(nodes := CaseRows(g.nodes, arms)))
    ensures KeepsRows(g, g.(nodes := CaseRows(g.nodes, arms)))
  {
  }

  lemma StatementKeepsSchema(g: Graph, s: Statement)
    requires MeetsSchema(g) && Exec(g, s).Some?
    ensures MeetsSchema(Exec(g, s).value) && KeepsRows(g, Exec(g, s).value)
  {
    if s.CaseUpdate? { CaseKeepsSchema(g, s.arms); }
  }

  // No statements break it, and none takes a row away.
  lemma {:induction false} SchemaIsKept(g: Graph, stmts: seq<Statement>)
    requires MeetsSchema(g) && ExecAll(g, stmts).Some?
    ensures MeetsSchema(ExecAll(g, stmts).value) && KeepsRows(g, ExecAll(g, stmts).value)
  {
    if stmts != [] {
      SchemaIsKept(g, stmts[..|stmts| - 1]);
      StatementKeepsSchema(ExecAll(g, stmts[..|stmts| - 1]).value, stmts[|stmts| - 1]);
    }
  }
}
