/** What `db-migrate` writes, and what its parity gate proves about it (db_migrate.rs). */
module Migration {
  import opened Wrappers
  import opened Tables
  import opened Chunking
  import opened SqlReading
  import opened Reachability

  datatype DomainNode = DomainNode(id: string, node: Node)

  // ---- The statements, and what they do ----

  function Upserts(nodes: seq<DomainNode>): (r: seq<Statement>)
    ensures |r| == |nodes|
  {
    if nodes == [] then []
    else Upserts(nodes[..|nodes| - 1]) + [UpsertNode(nodes[|nodes| - 1].id, nodes[|nodes| - 1].node)]
  }

  function EdgeInserts(edges: seq<Edge>, at: nat): (r: seq<Statement>)
    ensures |r| == |edges|
  {
    if edges == [] then []
    else EdgeInserts(edges[..|edges| - 1], at) + [InsertIgnoreEdge(edges[|edges| - 1], at)]
  }

  function Ids(nodes: seq<DomainNode>): set<string> { set n | n in nodes :: n.id }

  // The table after every row of the list, in order: the last row of an id stands.
  function Overlay(table: NodeTable, nodes: seq<DomainNode>): NodeTable {
    if nodes == [] then table
    else Overlay(table, nodes[..|nodes| - 1])[nodes[|nodes| - 1].id := nodes[|nodes| - 1].node]
  }

  // An edge already there keeps its `created_at`.
  function AddEdges(table: EdgeTable, edges: seq<Edge>, at: nat): EdgeTable {
    if edges == [] then table
    else
      var t, e := AddEdges(table, edges[..|edges| - 1], at), edges[|edges| - 1];
      if e in t then t else t[e := at]
  }

  predicate AllFit(nodes: seq<DomainNode>) {
    forall k :: 0 <= k < |nodes| ==> RowFits(nodes[k].id, nodes[k].node)
  }

  lemma {:induction false} UpsertsRun(g: Graph, nodes: seq<DomainNode>)
    ensures ExecAll(g, Upserts(nodes)) ==
              if AllFit(nodes) then Some(g.(nodes := Overlay(g.nodes, nodes))) else None
    decreases |nodes|
  {
    if nodes != [] {
      var rest, last := nodes[..|nodes| - 1], nodes[|nodes| - 1];
      UpsertsRun(g, rest);
      ExecAllAppend(g, Upserts(rest), UpsertNode(last.id, last.node));
      assert nodes == rest + [last];
      if AllFit(nodes) { assert AllFit(rest); }
      if AllFit(rest) && RowFits(last.id, last.node) { assert AllFit(nodes); }
    }
  }

  lemma {:induction false} EdgeInsertsRun(g: Graph, edges: seq<Edge>, at: nat)
    requires forall e :: e in edges ==> EndpointsExist(g, e)
    ensures ExecAll(g, EdgeInserts(edges, at)) == Some(g.(edges := AddEdges(g.edges, edges, at)))
    decreases |edges|
  {
    if edges != [] {
      var rest, last := edges[..|edges| - 1], edges[|edges| - 1];
      EdgeInsertsRun(g, rest, at);
      assert last in edges && EndpointsExist(g, last);
      ExecAllAppend(g, EdgeInserts(rest, at), InsertIgnoreEdge(last, at));
    }
  }

  // The last row of `id` in the list.
  function LastNode(nodes: seq<DomainNode>, id: string): Node
    requires id in Ids(nodes)
    decreases |nodes|
  {
    var last := nodes[|nodes| - 1];
    if last.id == id then last.node else LastNode(nodes[..|nodes| - 1], id)
  }

  lemma {:induction false} OverlayIs(table: NodeTable, nodes: seq<DomainNode>)
    ensures Overlay(table, nodes).Keys == table.Keys + Ids(nodes)
    ensures forall id :: id in Overlay(table, nodes) ==>
                           Overlay(table, nodes)[id] == if id in Ids(nodes) then LastNode(nodes, id) else table[id]
    decreases |nodes|
  {
    if nodes != [] {
      var rest, last := nodes[..|nodes| - 1], nodes[|nodes| - 1];
      OverlayIs(table, rest);
      assert nodes == rest + [last];
      assert Ids(nodes) == Ids(rest) + {last.id};
    }
  }

  lemma {:induction false} AddEdgesIs(table: EdgeTable, edges: seq<Edge>, at: nat)
    ensures AddEdges(table, edges, at).Keys == table.Keys + EdgeSet(edges)
    ensures forall e :: e in AddEdges(table, edges, at) ==>
                          AddEdges(table, edges, at)[e] == if e in table then table[e] else at
    decreases |edges|
  {
    if edges != [] {
      AddEdgesIs(table, edges[..|edges| - 1], at);
      assert edges == edges[..|edges| - 1] + [edges[|edges| - 1]];
    }
  }

  // An export: the nodes read, and the edges kept, whose endpoints are among those nodes.
  predicate Closed(nodes: seq<DomainNode>, kept: seq<Edge>) {
    forall e :: e in kept ==> e.from in Ids(nodes) && e.to in Ids(nodes)
  }

  function Import(nodes: seq<DomainNode>, kept: seq<Edge>, at: nat): seq<Statement> {
    Upserts(nodes) + EdgeInserts(kept, at)
  }

  function Imported(g: Graph, nodes: seq<DomainNode>, kept: seq<Edge>, at: nat): Graph {
    Graph(Overlay(g.nodes, nodes), AddEdges(g.edges, kept, at))
  }

  lemma ImportRuns(g: Graph, nodes: seq<DomainNode>, kept: seq<Edge>, at: nat)
    requires Closed(nodes, kept)
    ensures ExecAll(g, Import(nodes, kept, at)) == if AllFit(nodes) then Some(Imported(g, nodes, kept, at)) else None
  {
    UpsertsRun(g, nodes);
    ExecAllConcat(g, Upserts(nodes), EdgeInserts(kept, at));
    if AllFit(nodes) {
      OverlayIs(g.nodes, nodes);
      EdgeInsertsRun(g.(nodes := Overlay(g.nodes, nodes)), kept, at);
    }
  }

  // A second run of the same import, at whatever time, changes nothing at all.
  lemma SecondRunChangesNothing(g: Graph, nodes: seq<DomainNode>, kept: seq<Edge>, at: nat, later: nat)
    requires Closed(nodes, kept) && AllFit(nodes)
    ensures ExecAll(Imported(g, nodes, kept, at), Import(nodes, kept, later)) == Some(Imported(g, nodes, kept, at))
  {
    var once := Imported(g, nodes, kept, at);
    ImportRuns(once, nodes, kept, later);
    OverlayIs(g.nodes, nodes);
    OverlayIs(once.nodes, nodes);
    AddEdgesIs(g.edges, kept, at);
    AddEdgesIs(once.edges, kept, later);
    assert Overlay(once.nodes, nodes) == once.nodes;
    assert AddEdges(once.edges, kept, later) == once.edges;
  }

  // A run that stopped after any number of its nodes and edges, and was started over, ends
  // with the rows an uninterrupted run gives; only `created_at` can tell them apart.
  lemma RetryConverges(g: Graph, nodes: seq<DomainNode>, kept: seq<Edge>, n: nat, e: nat, at: nat, later: nat)
    requires Closed(nodes, kept) && AllFit(nodes) && n <= |nodes| && e <= |kept|
    ensures
      var stopped := Imported(g, nodes[..n], kept[..e], at);
      var again := Imported(stopped, nodes, kept, later);
      && ExecAll(stopped, Import(nodes, kept, later)) == Some(again)
      && again.nodes == Imported(g, nodes, kept, later).nodes
      && again.edges.Keys == Imported(g, nodes, kept, later).edges.Keys
  {
    ImportRuns(Imported(g, nodes[..n], kept[..e], at), nodes, kept, later);
    OverlayAbsorbs(g.nodes, nodes, n);
    EdgesAbsorb(g.edges, kept, e, at, later);
  }

  lemma OverlayAbsorbs(table: NodeTable, nodes: seq<DomainNode>, n: nat)
    requires n <= |nodes|
    ensures Overlay(Overlay(table, nodes[..n]), nodes) == Overlay(table, nodes)
  {
    OverlayIs(table, nodes[..n]);
    OverlayIs(table, nodes);
    OverlayIs(Overlay(table, nodes[..n]), nodes);
    assert Ids(nodes[..n]) <= Ids(nodes);
  }

  lemma EdgesAbsorb(table: EdgeTable, kept: seq<Edge>, e: nat, at: nat, later: nat)
    requires e <= |kept|
    ensures AddEdges(AddEdges(table, kept[..e], at), kept, later).Keys == AddEdges(table, kept, later).Keys
  {
    AddEdgesIs(table, kept[..e], at);
    AddEdgesIs(table, kept, later);
    AddEdgesIs(AddEdges(table, kept[..e], at), kept, later);
    assert EdgeSet(kept[..e]) <= EdgeSet(kept);
  }

  // ---- Batches ----

  // Statement texts cut into groups of the given sizes.
  function Slices<T>(items: seq<T>, sizes: seq<seq<string>>): seq<seq<T>>
    requires |items| == |Flatten(sizes)|
    decreases |sizes|
  {
    if sizes == [] then []
    else [items[..|sizes[0]|]] + Slices(items[|sizes[0]|..], sizes[1..])
  }

  lemma {:induction false} SlicesFlatten<T>(items: seq<T>, sizes: seq<seq<string>>)
    requires |items| == |Flatten(sizes)|
    ensures |Slices(items, sizes)| == |sizes| && Flatten(Slices(items, sizes)) == items
    ensures forall k :: 0 <= k < |sizes| ==> |Slices(items, sizes)[k]| == |sizes[k]|
    decreases |sizes|
  {
    if sizes != [] {
      SlicesFlatten(items[|sizes[0]|..], sizes[1..]);
      assert Slices(items, sizes)[1..] == Slices(items[|sizes[0]|..], sizes[1..]);
    }
  }

  lemma {:induction false} SqlTextsConcat(a: seq<Statement>, b: seq<Statement>, at: nat)
    requires AllSent(a, at) && AllSent(b, at) && AllSent(a + b, at)
    ensures SqlTexts(a + b, at) == SqlTexts(a, at) + SqlTexts(b, at)
  {
    if a == [] {
      assert a + b == b;
    } else {
      assert (a + b)[1..] == a[1..] + b;
      SqlTextsConcat(a[1..], b, at);
    }
  }

  lemma SameParts<T>(a: seq<T>, b: seq<T>, c: seq<T>, d: seq<T>)
    requires a + b == c + d && |a| == |c|
    ensures a == c && b == d
  {
    assert a == (a + b)[..|a|] && c == (c + d)[..|c|];
    assert b == (a + b)[|a|..] && d == (c + d)[|c|..];
  }

  lemma {:induction false} SlicesAreGroups(stmts: seq<Statement>, at: nat, groups: seq<seq<string>>)
    requires AllSent(stmts, at) && Flatten(groups) == SqlTexts(stmts, at)
    ensures |Slices(stmts, groups)| == |groups|
    ensures forall k :: 0 <= k < |groups| ==> IsGroup(Slices(stmts, groups)[k], at, groups[k])
    decreases |groups|
  {
    if groups != [] {
      var n := |groups[0]|;
      assert stmts == stmts[..n] + stmts[n..];
      SqlTextsConcat(stmts[..n], stmts[n..], at);
      SameParts(SqlTexts(stmts[..n], at), SqlTexts(stmts[n..], at), groups[0], Flatten(groups[1..]));
      SlicesAreGroups(stmts[n..], at, groups[1..]);
    }
  }

  predicate IsGroup(slice: seq<Statement>, at: nat, group: seq<string>) {
    AllSent(slice, at) && group == SqlTexts(slice, at)
  }

  // Every batch text `chunk_statements` builds of a list of statements, sent with its staging, is
  // understood by the engine as its slice of them and the staging, so the batches together are
  // the statements, once each, in order.
  lemma BatchesCarryStatements(stmts: seq<Statement>, at: nat, batches: seq<string>, groups: seq<seq<string>>, budget: nat)
    requires AllSent(stmts, at)
    requires Flatten(groups) == SqlTexts(stmts, at) && Rendered(batches, groups, budget)
    requires forall k :: 0 <= k < |groups| ==> groups[k] != []
    ensures Flatten(Slices(stmts, groups)) == stmts && |Slices(stmts, groups)| == |batches|
    ensures forall k :: 0 <= k < |batches| ==> IsSent(batches[k], at, Slices(stmts, groups)[k])
  {
    SlicesAreGroups(stmts, at, groups);
    SlicesFlatten(stmts, groups);
    var slices := Slices(stmts, groups);
    forall k | 0 <= k < |batches| ensures IsSent(batches[k], at, slices[k]) {
      assert IsGroup(slices[k], at, groups[k]) && BatchWithin(batches[k], groups[k], budget);
      BatchIsUnderstood(batches[k], at, slices[k]);
    }
  }

  predicate IsSent(batch: string, at: nat, slice: seq<Statement>) {
    && IsBatch(batch, at, slice)
    && Understood(StagingWrite(batch), at) == Some(Writes(slice) + StagingCommands())
  }

  lemma {:induction false} ImportIsSent(nodes: seq<DomainNode>, kept: seq<Edge>, at: nat)
    ensures AllSent(Upserts(nodes), at) && AllSent(EdgeInserts(kept, at), at)
    decreases |nodes| + |kept|
  {
    if nodes != [] { ImportIsSent(nodes[..|nodes| - 1], [], at); }
    if kept != [] { ImportIsSent([], kept[..|kept| - 1], at); }
  }

  // ---- Parity ----

  function NodeKinds(nodes: seq<DomainNode>): (r: seq<NodeKind>)
    ensures |r| == |nodes|
    ensures forall k :: 0 <= k < |r| ==> r[k] == nodes[k].node.kind
  {
    seq(|nodes|, k requires 0 <= k < |nodes| => nodes[k].node.kind)
  }

  function EdgeKinds(edges: seq<Edge>): (r: seq<EdgeKind>)
    ensures |r| == |edges|
    ensures forall k :: 0 <= k < |r| ==> r[k] == edges[k].kind
  {
    seq(|edges|, k requires 0 <= k < |edges| => edges[k].kind)
  }

  // A count per key, as a map without zero entries.
  ghost predicate IsCount<K(!new)>(counts: map<K, nat>, bag: multiset<K>) {
    forall k :: k in counts || k in bag ==> k in counts && k in bag && counts[k] == bag[k]
  }

  method CountBy<K(==, !new)>(keys: seq<K>) returns (counts: map<K, nat>)
    ensures IsCount(counts, multiset(keys))
  {
    counts := map[];
    for i := 0 to |keys|
      invariant IsCount(counts, multiset(keys[..i]))
    {
      assert keys[..i + 1] == keys[..i] + [keys[i]];
      counts := counts[keys[i] := if keys[i] in counts then counts[keys[i]] + 1 else 1];
    }
    assert keys[..|keys|] == keys;
  }

  // The kinds of a table's rows, with multiplicity.
  ghost function Bag<X, K>(rows: set<X>, kind: X -> K): multiset<K> {
    if rows == {} then multiset{}
    else
      var x :| x in rows;
      multiset{kind(x)} + Bag(rows - {x}, kind)
  }

  lemma BagTakesOne<X, K>(rows: set<X>, kind: X -> K) returns (x: X)
    requires rows != {}
    ensures x in rows && Bag(rows, kind) == multiset{kind(x)} + Bag(rows - {x}, kind)
  {
    x :| x in rows && Bag(rows, kind) == multiset{kind(x)} + Bag(rows - {x}, kind);
  }

  lemma {:induction false} BagSize<X, K>(rows: set<X>, kind: X -> K)
    ensures |Bag(rows, kind)| == |rows|
  {
    if rows != {} {
      var x := BagTakesOne(rows, kind);
      BagSize(rows - {x}, kind);
    }
  }

  function OfKind<X, K(==)>(rows: set<X>, kind: X -> K, k: K): set<X> { set x | x in rows && kind(x) == k }

  lemma OfKindLess<X, K>(rows: set<X>, kind: X -> K, k: K, x: X)
    requires x in rows
    ensures |OfKind(rows, kind, k)| == |OfKind(rows - {x}, kind, k)| + if kind(x) == k then 1 else 0
  {
    var less := OfKind(rows - {x}, kind, k);
    assert OfKind(rows, kind, k) == if kind(x) == k then less + {x} else less;
  }

  // What `SELECT kind, COUNT(*) .. GROUP BY kind` counts.
  lemma {:induction false} BagCounts<X, K>(rows: set<X>, kind: X -> K, k: K)
    ensures Bag(rows, kind)[k] == |OfKind(rows, kind, k)|
  {
    if rows != {} {
      var x := BagTakesOne(rows, kind);
      BagCounts(rows - {x}, kind, k);
      OfKindLess(rows, kind, k, x);
    } else {
      assert OfKind(rows, kind, k) == {};
    }
  }

  function KindOf(nodes: NodeTable, id: string): NodeKind { if id in nodes then nodes[id].kind else Question }

  ghost predicate IsGroupCount<X(!new), K(!new)>(counts: map<K, nat>, rows: set<X>, kind: X -> K) {
    forall k :: (k in counts <==> exists x :: x in rows && kind(x) == k) &&
                (k in counts ==> counts[k] == |OfKind(rows, kind, k)|)
  }

  lemma GroupCountIsBag<X(!new), K(!new)>(counts: map<K, nat>, rows: set<X>, kind: X -> K)
    requires IsGroupCount(counts, rows, kind)
    ensures IsCount(counts, Bag(rows, kind))
  {
    forall k ensures k in counts || k in Bag(rows, kind) ==>
                       k in counts && k in Bag(rows, kind) && counts[k] == Bag(rows, kind)[k]
    {
      BagCounts(rows, kind, k);
      var of := OfKind(rows, kind, k);
      if exists x :: x in rows && kind(x) == k {
        var x :| x in rows && kind(x) == k;
        assert x in of;
      } else {
        assert of == {};
      }
    }
  }

  function Get<K>(counts: map<K, nat>, k: K): nat { if k in counts then counts[k] else 0 }

  predicate Agree<K(!new)>(expected: map<K, nat>, actual: map<K, nat>) {
    forall k :: k in expected.Keys + actual.Keys ==> Get(expected, k) == Get(actual, k)
  }

  function ElementSet<T>(s: seq<T>): set<T> { set x | x in s }

  // A list is as long as its set of elements exactly when nothing in it repeats.
  lemma {:induction false} RepeatsShow<T>(s: seq<T>)
    ensures |ElementSet(s)| <= |s|
    ensures |ElementSet(s)| == |s| <==> NoRepeats(s)
    decreases |s|
  {
    if s != [] {
      var rest, x := s[..|s| - 1], s[|s| - 1];
      RepeatsShow(rest);
      assert s == rest + [x];
      assert ElementSet(s) == ElementSet(rest) + {x};
      if x in rest {
        assert ElementSet(s) == ElementSet(rest);
        var i :| 0 <= i < |rest| && rest[i] == x;
        assert s[i] == s[|s| - 1];
      } else {
        if NoRepeats(rest) {
          forall i, j | 0 <= i < j < |s| ensures s[i] != s[j] {
            if j == |s| - 1 { assert s[i] == rest[i]; }
          }
        }
        if NoRepeats(s) { assert forall i, j :: 0 <= i < j < |rest| ==> rest[i] == s[i] && rest[j] == s[j]; }
      }
    }
  }

  // The heart of the gate: rows that include every listed one, and are as many as the list is
  // long, are exactly the listed ones if and only if the list repeats nothing.
  lemma CountsRuleOutExtras<T>(rows: set<T>, listed: seq<T>)
    requires ElementSet(listed) <= rows && |rows| == |listed|
    ensures rows == ElementSet(listed) <==> NoRepeats(listed)
  {
    RepeatsShow(listed);
    var extra := rows - ElementSet(listed);
    assert rows == ElementSet(listed) + extra;
    if NoRepeats(listed) { assert |extra| == 0; }
  }

  function NodeIds(nodes: seq<DomainNode>): (r: seq<string>)
    ensures |r| == |nodes|
    ensures forall k :: 0 <= k < |r| ==> r[k] == nodes[k].id
  {
    seq(|nodes|, k requires 0 <= k < |nodes| => nodes[k].id)
  }

  lemma NodeIdsSet(nodes: seq<DomainNode>)
    ensures ElementSet(NodeIds(nodes)) == Ids(nodes)
  {
    forall id | id in Ids(nodes) ensures id in NodeIds(nodes) {
      var k :| 0 <= k < |nodes| && nodes[k].id == id;
      assert NodeIds(nodes)[k] == id;
    }
  }

  // The gate's premises about one graph: per-kind counts of both tables match the aida side,
  // and the two edge reads name the same edges.
  ghost predicate Parity(g: Graph, nodes: seq<DomainNode>, kept: seq<Edge>, verified: seq<Edge>) {
    && multiset(NodeKinds(nodes)) == Bag(g.nodes.Keys, id => KindOf(g.nodes, id))
    && multiset(EdgeKinds(verified)) == Bag(g.edges.Keys, (e: Edge) => e.kind)
    && EdgeSet(kept) == EdgeSet(verified)
  }

  // The graph holds the exported rows and nothing else.
  predicate Exact(g: Graph, nodes: seq<DomainNode>, kept: seq<Edge>) {
    && g.nodes.Keys == Ids(nodes)
    && (forall id :: id in Ids(nodes) ==> g.nodes[id] == LastNode(nodes, id))
    && g.edges.Keys == EdgeSet(kept)
  }

  // Parity after an import proves the graph is exactly the export, if and only if neither aida
  // listing held a duplicate row. A duplicate hides one extra row behind it.
  lemma ParityProvesExactness(g0: Graph, nodes: seq<DomainNode>, kept: seq<Edge>, verified: seq<Edge>, at: nat)
    requires Parity(Imported(g0, nodes, kept, at), nodes, kept, verified)
    ensures Exact(Imported(g0, nodes, kept, at), nodes, kept) <==>
              NoRepeats(NodeIds(nodes)) && NoRepeats(verified)
  {
    var g := Imported(g0, nodes, kept, at);
    OverlayIs(g0.nodes, nodes);
    AddEdgesIs(g0.edges, kept, at);
    BagSize(g.nodes.Keys, id => KindOf(g.nodes, id));
    BagSize(g.edges.Keys, (e: Edge) => e.kind);
    assert |multiset(NodeKinds(nodes))| == |nodes|;
    assert |multiset(EdgeKinds(verified))| == |verified|;
    NodeIdsSet(nodes);
    CountsRuleOutExtras(g.nodes.Keys, NodeIds(nodes));
    assert ElementSet(verified) == EdgeSet(verified);
    CountsRuleOutExtras(g.edges.Keys, verified);
  }

  lemma BagOfTwo(a: string, b: string, kind: string -> NodeKind, k: NodeKind)
    requires a != b && kind(a) == k && kind(b) == k
    ensures Bag({a, b}, kind) == multiset{k, k}
  {
    assert |{a, b}| == 2;
    forall j ensures Bag({a, b}, kind)[j] == multiset{k, k}[j] {
      BagCounts({a, b}, kind, j);
      assert OfKind({a, b}, kind, j) == if j == k then {a, b} else {};
    }
  }

  // The concrete way through the gate: a listing that names a node twice passes over a table
  // holding a node nobody exported.
  lemma DuplicateHidesExtra(extra: Node, listed: Node)
    requires extra.kind == listed.kind
    ensures
      var g0 := Graph(map["Q-9" := extra], map[]);
      var nodes := [DomainNode("Q-1", listed), DomainNode("Q-1", listed)];
      var g := Imported(g0, nodes, [], 0);
      Parity(g, nodes, [], []) && "Q-9" in g.nodes && "Q-9" !in Ids(nodes)
  {
    var nodes := [DomainNode("Q-1", listed), DomainNode("Q-1", listed)];
    var g := Imported(Graph(map["Q-9" := extra], map[]), nodes, [], 0);
    TwoRowsStand(extra, listed, nodes);
    assert g.nodes.Keys == {"Q-9", "Q-1"} && g.edges == map[];
    BagOfTwo("Q-9", "Q-1", id => KindOf(g.nodes, id), listed.kind);
    assert NodeKinds(nodes) == [listed.kind] + [listed.kind];
    assert multiset(NodeKinds(nodes)) == multiset{listed.kind, listed.kind};
  }

  lemma TwoRowsStand(extra: Node, listed: Node, nodes: seq<DomainNode>)
    requires nodes == [DomainNode("Q-1", listed), DomainNode("Q-1", listed)]
    ensures "Q-9" != "Q-1" && Ids(nodes) == {"Q-1"}
    ensures Overlay(map["Q-9" := extra], nodes) == map["Q-9" := extra, "Q-1" := listed]
  {
    assert "Q-9"[2] != "Q-1"[2];
    OverlayIs(map["Q-9" := extra], nodes);
    assert nodes[1].id == "Q-1" && nodes[1] in nodes;
  }

  // Once the graph is exact, the spot-check can find nothing: the walk over the verified edges
  // is what the engine's query returns, for every migrated root the query can finish on.
  lemma SpotCheckIsImplied(g: Graph, nodes: seq<DomainNode>, kept: seq<Edge>, verified: seq<Edge>, root: string, walked: set<string>)
    requires Exact(g, nodes, kept) && EdgeSet(kept) == EdgeSet(verified) && Closed(nodes, kept) && AllFit(nodes)
    requires root in Ids(nodes)
    requires forall n :: n in walked <==> Reaches(EdgeSet(verified), Begets, root, n)
    requires Cte(g.edges.Keys, Begets, root, CTE_MAX_RECURSION_DEPTH).Some?
    ensures Cte(g.edges.Keys, Begets, root, CTE_MAX_RECURSION_DEPTH).value == walked
  {
    forall id | id in Ids(nodes) ensures |id| <= ID_WIDTH {
      var k :| 0 <= k < |nodes| && nodes[k].id == id;
      assert RowFits(nodes[k].id, nodes[k].node);
    }
    WalkEqualsCte(g.edges.Keys, root, CTE_MAX_RECURSION_DEPTH, walked);
  }
}
