/** `db-migrate` itself (db_migrate.rs): pre-flight, batched writes, parity gate, commit. */
module MigrationRun {
  import opened Wrappers
  import opened Tables
  import opened WriteSeam
  import opened Commands
  import opened DoltRepository
  import opened Chunking
  import opened SqlReading
  import opened Reachability
  import opened Migration

  datatype Mismatch =
    | NodeCount(nodeKind: NodeKind, want: nat, got: nat)
    | EdgeCount(edgeKind: EdgeKind, want: nat, got: nat)
    | MissedByExporter(edge: Edge)
    | AbsentFromVerified(edge: Edge)
    | RootNotMigrated(root: string)
    | LineageDiffers(root: string)

  datatype MigrateError = Refused(error: Error) | WriteFailed | QueryFailed | ParityMismatch(mismatches: seq<Mismatch>)

  // What the aida side hands over: the nodes, the global edge scan, and the independent
  // per-node edge reads.
  datatype Export = Export(nodes: seq<DomainNode>, edges: seq<Edge>, perNode: seq<Edge>)

  predicate Domain(nodes: seq<DomainNode>, e: Edge) { e.from in Ids(nodes) && e.to in Ids(nodes) }

  // Only edges with both ends among the exported nodes are part of the domain graph.
  function DomainEdges(nodes: seq<DomainNode>, edges: seq<Edge>): (kept: seq<Edge>)
    ensures Closed(nodes, kept)
    ensures forall e :: e in kept <==>
              && e in edges
              && (exists k :: 0 <= k < |nodes| && nodes[k].id == e.from)
              && (exists k :: 0 <= k < |nodes| && nodes[k].id == e.to)
  {
    if edges == [] then []
    else
      var rest, last := DomainEdges(nodes, edges[..|edges| - 1]), edges[|edges| - 1];
      assert edges == edges[..|edges| - 1] + [last];
      if Domain(nodes, last) then rest + [last] else rest
  }

  // `m` is the cell of a kind the two counts differ on.
  ghost predicate Reports<K(!new)>(m: Mismatch, expected: map<K, nat>, actual: map<K, nat>, wrap: (K, nat, nat) -> Mismatch) {
    exists k :: k in expected.Keys + actual.Keys && Get(expected, k) != Get(actual, k)
                && m == wrap(k, Get(expected, k), Get(actual, k))
  }

  // One cell per kind on either side; any difference is a mismatch.
  method RenderParity<K(==, !new)>(expected: map<K, nat>, actual: map<K, nat>, wrap: (K, nat, nat) -> Mismatch)
    returns (mismatches: seq<Mismatch>)
    ensures mismatches == [] <==> Agree(expected, actual)
    ensures forall k :: k in expected.Keys + actual.Keys && Get(expected, k) != Get(actual, k) ==>
                          wrap(k, Get(expected, k), Get(actual, k)) in mismatches
    ensures forall m :: m in mismatches ==> Reports(m, expected, actual, wrap)
  {
    mismatches := [];
    var kinds, done: set<K> := expected.Keys + actual.Keys, {};
    while done != kinds
      invariant done <= kinds
      invariant mismatches == [] <==> forall k :: k in done ==> Get(expected, k) == Get(actual, k)
      invariant forall k :: k in done && Get(expected, k) != Get(actual, k) ==>
                              wrap(k, Get(expected, k), Get(actual, k)) in mismatches
      invariant forall m :: m in mismatches ==> Reports(m, expected, actual, wrap)
      decreases |kinds - done|
    {
      var k :| k in kinds && k !in done;
      assert kinds - done == (kinds - (done + {k})) + {k};
      var want, got := Get(expected, k), Get(actual, k);
      if want != got { mismatches := mismatches + [wrap(k, want, got)]; }
      done := done + {k};
    }
  }

  // Edge by edge, in both directions: counts alone could coincide while the sets differ.
  method CrossCheckEdgeReads(exporter: seq<Edge>, verified: seq<Edge>) returns (mismatches: seq<Mismatch>)
    ensures mismatches == [] <==> EdgeSet(exporter) == EdgeSet(verified)
    ensures forall e :: MissedByExporter(e) in mismatches <==> e in verified && e !in exporter
    ensures forall e :: AbsentFromVerified(e) in mismatches <==> e in exporter && e !in verified
    ensures forall m :: m in mismatches ==> m.MissedByExporter? || m.AbsentFromVerified?
  {
    mismatches := [];
    for i := 0 to |verified|
      invariant forall m :: m in mismatches ==> m.MissedByExporter?
      invariant forall e :: MissedByExporter(e) in mismatches <==> e in verified[..i] && e !in exporter
    {
      assert verified[..i + 1] == verified[..i] + [verified[i]];
      if verified[i] !in exporter && MissedByExporter(verified[i]) !in mismatches {
        mismatches := mismatches + [MissedByExporter(verified[i])];
      }
    }
    assert verified[..|verified|] == verified;
    for i := 0 to |exporter|
      invariant forall m :: m in mismatches ==> m.MissedByExporter? || m.AbsentFromVerified?
      invariant forall e :: MissedByExporter(e) in mismatches <==> e in verified && e !in exporter
      invariant forall e :: AbsentFromVerified(e) in mismatches <==> e in exporter[..i] && e !in verified
    {
      assert exporter[..i + 1] == exporter[..i] + [exporter[i]];
      if exporter[i] !in verified && AbsentFromVerified(exporter[i]) !in mismatches {
        mismatches := mismatches + [AbsentFromVerified(exporter[i])];
      }
    }
    assert exporter[..|exporter|] == exporter;
    if mismatches == [] {
      forall e ensures e in EdgeSet(exporter) <==> e in EdgeSet(verified) {
        assert MissedByExporter(e) !in mismatches && AbsentFromVerified(e) !in mismatches;
      }
    } else {
      assert mismatches[0] in mismatches;
      match mismatches[0]
      case MissedByExporter(e) => assert e in EdgeSet(verified) && e !in EdgeSet(exporter);
      case AbsentFromVerified(e) => assert e in EdgeSet(exporter) && e !in EdgeSet(verified);
    }
  }

  // Group counts, as the engine answers them.
  method GroupCount<X(!new), K(==, !new)>(rows: set<X>, kind: X -> K) returns (counts: map<K, nat>)
    ensures IsCount(counts, Bag(rows, kind))
  {
    counts := map k | k in (set x | x in rows :: kind(x)) :: |OfKind(rows, kind, k)|;
    GroupCountIsBag(counts, rows, kind);
  }

  // Ship `stmts` in size-bounded batches of text, each staging and recording itself.
  method RunBatches(repo: Repository, stmts: seq<Statement>, at: nat, rec: Recording, ghost before: Repo, ghost sofar: seq<Event>)
    returns (ok: bool, ghost events: seq<Event>)
    requires AllSent(stmts, at)
    requires Claimed(before, sofar, repo.Value()) && repo.staged.graph == repo.working.graph
    modifies repo
    ensures OnlyRowsMoved(old(repo.Value()), repo.Value())
    ensures ok <==> ExecAll(old(repo.working.graph), stmts).Some?
    ensures ok ==> repo.working.graph == ExecAll(old(repo.working.graph), stmts).value
    ensures ok ==> repo.staged.graph == repo.working.graph
    ensures if ok then Claimed(before, events, repo.Value()) else Does(before, events, repo.Value())
    ensures ok && rec == Written && BeginAccepts(old(repo.Value())) ==> BeginAccepts(repo.Value())
  {
    var batches, groups := ChunkStatements(SqlTexts(stmts, at), SQL_BATCH_BUDGET);
    forall k | 0 <= k < |groups| ensures groups[k] != [] {
      assert Allowed(groups[k], StatementCost, StatementLimits(SqlTexts(stmts, at), SQL_BATCH_BUDGET));
    }
    BatchesCarryStatements(stmts, at, batches, groups, SQL_BATCH_BUDGET);
    forall k | 0 <= k < |batches| ensures IsBatch(batches[k], at, Slices(stmts, groups)[k]) {
      assert IsSent(batches[k], at, Slices(stmts, groups)[k]);
    }
    ok, events := RunAll(repo, batches, at, rec, Slices(stmts, groups), before, sofar);
  }

  // One table's rows per kind: what the aida side wants, against what the table has.
  method CompareCounts<X(!new), K(==, !new)>(wanted: seq<K>, rows: set<X>, kind: X -> K, wrap: (K, nat, nat) -> Mismatch)
    returns (mismatches: seq<Mismatch>)
    ensures mismatches == [] <==> multiset(wanted) == Bag(rows, kind)
    ensures forall k :: multiset(wanted)[k] != |OfKind(rows, kind, k)| ==>
                          wrap(k, multiset(wanted)[k], |OfKind(rows, kind, k)|) in mismatches
    ensures forall m :: m in mismatches ==>
              exists k :: multiset(wanted)[k] != |OfKind(rows, kind, k)|
                          && m == wrap(k, multiset(wanted)[k], |OfKind(rows, kind, k)|)
  {
    var want := CountBy(wanted);
    var got := GroupCount(rows, kind);
    mismatches := RenderParity(want, got, wrap);
    CountsAgree(want, multiset(wanted), got, Bag(rows, kind));
    forall k ensures Get(want, k) == multiset(wanted)[k] && Get(got, k) == |OfKind(rows, kind, k)| {
      BagCounts(rows, kind, k);
    }
    forall k | multiset(wanted)[k] != |OfKind(rows, kind, k)| ensures k in want.Keys + got.Keys {
      assert Get(want, k) != Get(got, k);
    }
    forall m | m in mismatches
      ensures exists k :: multiset(wanted)[k] != |OfKind(rows, kind, k)|
                          && m == wrap(k, multiset(wanted)[k], |OfKind(rows, kind, k)|)
    {
      assert Reports(m, want, got, wrap);
    }
  }

  // The node table against the exported kinds.
  method CompareNodes(g: Graph, nodes: seq<DomainNode>) returns (mismatches: seq<Mismatch>)
    ensures mismatches == [] <==> multiset(NodeKinds(nodes)) == Bag(g.nodes.Keys, id => KindOf(g.nodes, id))
    ensures forall k: NodeKind, want: nat, got: nat :: NodeCount(k, want, got) in mismatches <==>
              && want == multiset(NodeKinds(nodes))[k] && got == |OfKind(g.nodes.Keys, id => KindOf(g.nodes, id), k)| && want != got
    ensures forall m :: m in mismatches ==> m.NodeCount?
  {
    mismatches := CompareCounts(NodeKinds(nodes), g.nodes.Keys, id => KindOf(g.nodes, id), (k, want, got) => NodeCount(k, want, got));
  }

  // The edge table against the kinds of the second read.
  method CompareEdges(g: Graph, verified: seq<Edge>) returns (mismatches: seq<Mismatch>)
    ensures mismatches == [] <==> multiset(EdgeKinds(verified)) == Bag(g.edges.Keys, (e: Edge) => e.kind)
    ensures forall k: EdgeKind, want: nat, got: nat :: EdgeCount(k, want, got) in mismatches <==>
              && want == multiset(EdgeKinds(verified))[k] && got == |OfKind(g.edges.Keys, (e: Edge) => e.kind, k)| && want != got
    ensures forall m :: m in mismatches ==> m.EdgeCount?
  {
    mismatches := CompareCounts(EdgeKinds(verified), g.edges.Keys, (e: Edge) => e.kind, (k, want, got) => EdgeCount(k, want, got));
  }

  // The counts of both tables, and the two edge reads against each other: each mismatch there is,
  // and no other.
  method CompareTables(g: Graph, nodes: seq<DomainNode>, kept: seq<Edge>, verified: seq<Edge>)
    returns (mismatches: seq<Mismatch>)
    ensures mismatches == [] <==> Parity(g, nodes, kept, verified)
    ensures forall k: NodeKind, want: nat, got: nat :: NodeCount(k, want, got) in mismatches <==>
              && want == multiset(NodeKinds(nodes))[k] && got == |OfKind(g.nodes.Keys, id => KindOf(g.nodes, id), k)| && want != got
    ensures forall k: EdgeKind, want: nat, got: nat :: EdgeCount(k, want, got) in mismatches <==>
              && want == multiset(EdgeKinds(verified))[k] && got == |OfKind(g.edges.Keys, (e: Edge) => e.kind, k)| && want != got
    ensures forall e :: MissedByExporter(e) in mismatches <==> e in verified && e !in kept
    ensures forall e :: AbsentFromVerified(e) in mismatches <==> e in kept && e !in verified
    ensures forall m :: m in mismatches ==> !m.RootNotMigrated? && !m.LineageDiffers?
  {
    var m1 := CompareNodes(g, nodes);
    var m2 := CompareEdges(g, verified);
    var m3 := CrossCheckEdgeReads(kept, verified);
    mismatches := m1 + m2 + m3;
  }

  // The walk over the verified edges is the query's answer.
  ghost predicate SameLineage(g: Graph, verified: seq<Edge>, root: string) {
    var reached := Cte(g.edges.Keys, Begets, root, CTE_MAX_RECURSION_DEPTH);
    reached.Some? && forall n :: n in reached.value <==> Reaches(EdgeSet(verified), Begets, root, n)
  }

  // Some `begets` edge leads from `root` to another node.
  predicate HasLineage(verified: seq<Edge>, root: string) {
    exists k :: 0 <= k < |verified| && verified[k].kind == Begets && verified[k].from == root && verified[k].to != root
  }

  // A root that is migrated, or has a lineage, passes exactly when the query returns the walk,
  // and is undecided exactly when the query aborts. One that is neither is reported.
  method SpotCheck(g: Graph, nodes: seq<DomainNode>, verified: seq<Edge>, root: string) returns (r: Option<seq<Mismatch>>)
    ensures root in Ids(nodes) || HasLineage(verified, root) ==>
              && (r == Some([]) <==> SameLineage(g, verified, root))
              && (r == None <==> Cte(g.edges.Keys, Begets, root, 1000) == None)
              && (r == Some([]) || r == None || r == Some([LineageDiffers(root)]))
    ensures root !in Ids(nodes) && !HasLineage(verified, root) ==> r == Some([RootNotMigrated(root)])
  {
    var expected := BegetsReachable(root, verified);
    OnlyItself(EdgeSet(verified), root, expected);
    LineageIsReach(verified, root);
    if |expected| <= 1 && root !in Ids(nodes) { return Some([RootNotMigrated(root)]); }
    var reached := Cte(g.edges.Keys, Begets, root, CTE_MAX_RECURSION_DEPTH);
    match reached
    case None => return None;
    case Some(rows) =>
      assert rows == expected <==> forall n :: n in rows <==> n in expected;
      return if rows == expected then Some([]) else Some([LineageDiffers(root)]);
  }

  lemma LineageIsReach(verified: seq<Edge>, root: string)
    ensures HasLineage(verified, root) <==> exists n :: n != root && Reaches(EdgeSet(verified), Begets, root, n)
  {
    var edges := EdgeSet(verified);
    assert WalkTo(edges, Begets, root, root, [root]);
    if HasLineage(verified, root) {
      var k :| 0 <= k < |verified| && verified[k].kind == Begets && verified[k].from == root && verified[k].to != root;
      assert verified[k] in edges && verified[k] == Edge(root, verified[k].to, Begets);
      ReachesOn(edges, Begets, root, root, verified[k].to);
    } else {
      forall e | e in edges && e.kind == Begets && e.from in {root} ensures e.to in {root} {
        var k :| 0 <= k < |verified| && verified[k] == e;
      }
      forall n | Reaches(edges, Begets, root, n) ensures n == root {
        var p :| WalkTo(edges, Begets, root, n, p);
        ClosedHoldsWalks(edges, Begets, {root}, p);
      }
    }
  }

  lemma OnlyItself(edges: set<Edge>, root: string, reached: set<string>)
    requires forall n :: n in reached <==> Reaches(edges, Begets, root, n)
    ensures |reached| <= 1 <==> forall n :: n in reached ==> n == root
  {
    assert WalkTo(edges, Begets, root, root, [root]);
    assert reached == {root} + (reached - {root});
    if |reached| <= 1 { assert reached - {root} == {}; }
    if forall n :: n in reached ==> n == root { assert reached == {root}; }
  }

  // What the gate lets through, and what makes its query fail.
  ghost predicate Passes(g: Graph, nodes: seq<DomainNode>, kept: seq<Edge>, verified: seq<Edge>, spotCheck: Option<string>) {
    && Parity(g, nodes, kept, verified)
    && (spotCheck.Some? ==>
          && (spotCheck.value in Ids(nodes) || HasLineage(verified, spotCheck.value))
          && SameLineage(g, verified, spotCheck.value))
  }

  ghost predicate Aborts(g: Graph, nodes: seq<DomainNode>, verified: seq<Edge>, spotCheck: Option<string>) {
    && spotCheck.Some? && (spotCheck.value in Ids(nodes) || HasLineage(verified, spotCheck.value))
    && Cte(g.edges.Keys, Begets, spotCheck.value, CTE_MAX_RECURSION_DEPTH) == None
  }

  // The parity report: every mismatch the gate looks for, or none if the query failed.
  method CheckParity(g: Graph, nodes: seq<DomainNode>, kept: seq<Edge>, verified: seq<Edge>, spotCheck: Option<string>)
    returns (r: Option<seq<Mismatch>>)
    ensures r == Some([]) <==> Passes(g, nodes, kept, verified, spotCheck)
    ensures r == None <==> Aborts(g, nodes, verified, spotCheck)
    ensures spotCheck == None && Parity(g, nodes, kept, verified) ==> r == Some([])
    // Tables that are exact pass, whatever migrated root is checked, if the query finishes.
    ensures spotCheck.Some? && spotCheck.value in Ids(nodes) && Exact(g, nodes, kept) && Closed(nodes, kept) && AllFit(nodes)
            && Parity(g, nodes, kept, verified) && Cte(g.edges.Keys, Begets, spotCheck.value, CTE_MAX_RECURSION_DEPTH).Some?
            ==> r == Some([])
    // A root nobody exported is reported, whatever else is.
    ensures spotCheck.Some? && spotCheck.value !in Ids(nodes) && Closed(nodes, verified) ==>
              r.Some? && RootNotMigrated(spotCheck.value) in r.value
  {
    var mismatches := CompareTables(g, nodes, kept, verified);
    if spotCheck == None { return Some(mismatches); }
    var root := spotCheck.value;
    ExactPasses(g, nodes, kept, verified, root);
    if Closed(nodes, verified) && root !in Ids(nodes) { assert !HasLineage(verified, root); }
    var spot := SpotCheck(g, nodes, verified, root);
    match spot
    case None => return None;
    case Some(more) =>
      assert mismatches + more == [] <==> mismatches == [] && more == [];
      return Some(mismatches + more);
  }

  lemma ExactPasses(g: Graph, nodes: seq<DomainNode>, kept: seq<Edge>, verified: seq<Edge>, root: string)
    ensures root in Ids(nodes) && Exact(g, nodes, kept) && Closed(nodes, kept) && AllFit(nodes)
            && EdgeSet(kept) == EdgeSet(verified) && Cte(g.edges.Keys, Begets, root, CTE_MAX_RECURSION_DEPTH).Some?
            ==> SameLineage(g, verified, root)
  {
    if root in Ids(nodes) && Exact(g, nodes, kept) && Closed(nodes, kept) && AllFit(nodes)
       && EdgeSet(kept) == EdgeSet(verified) && Cte(g.edges.Keys, Begets, root, CTE_MAX_RECURSION_DEPTH).Some? {
      IdIsNarrow(nodes, root);
      CteIsReachability(g.edges.Keys, Begets, root, CTE_MAX_RECURSION_DEPTH);
    }
  }

  lemma IdIsNarrow(nodes: seq<DomainNode>, id: string)
    requires id in Ids(nodes) && AllFit(nodes)
    ensures |id| <= ID_WIDTH
  {
    var k :| 0 <= k < |nodes| && nodes[k].id == id;
    assert RowFits(nodes[k].id, nodes[k].node);
  }

  lemma CountsAgree<K(!new)>(expected: map<K, nat>, a: multiset<K>, actual: map<K, nat>, b: multiset<K>)
    requires IsCount(expected, a) && IsCount(actual, b)
    ensures Agree(expected, actual) <==> a == b
  {
    if Agree(expected, actual) {
      forall k ensures a[k] == b[k] {
        if k in a || k in b { assert k in expected.Keys + actual.Keys; }
      }
    } else {
      var k :| k in expected.Keys + actual.Keys && Get(expected, k) != Get(actual, k);
      assert a[k] != b[k];
    }
  }

  // Nodes first: the edges refer to them.
  method WriteImport(repo: Repository, nodes: seq<DomainNode>, kept: seq<Edge>, at: nat, rec: Recording,
                     ghost before: Repo, ghost sofar: seq<Event>)
    returns (ok: bool, ghost events: seq<Event>)
    requires Claimed(before, sofar, repo.Value()) && repo.staged.graph == repo.working.graph && Closed(nodes, kept)
    modifies repo
    ensures OnlyRowsMoved(old(repo.Value()), repo.Value())
    ensures ok <==> AllFit(nodes)
    ensures ok ==> repo.working.graph == Imported(old(repo.working.graph), nodes, kept, at)
    ensures ok ==> repo.staged.graph == repo.working.graph
    ensures if ok then Claimed(before, events, repo.Value()) else Does(before, events, repo.Value())
    ensures ok && rec == Written && BeginAccepts(old(repo.Value())) ==> BeginAccepts(repo.Value())
  {
    ghost var g0 := repo.working.graph;
    UpsertsRun(g0, nodes);
    ImportRuns(g0, nodes, kept, at);
    ExecAllConcat(g0, Upserts(nodes), EdgeInserts(kept, at));
    ImportIsSent(nodes, kept, at);
    ok, events := RunBatches(repo, Upserts(nodes), at, rec, before, sofar);
    if ok { ok, events := RunBatches(repo, EdgeInserts(kept, at), at, rec, before, events); }
  }

  lemma ParityMeansExact(g0: Graph, nodes: seq<DomainNode>, kept: seq<Edge>, verified: seq<Edge>, at: nat)
    ensures
      var g := Imported(g0, nodes, kept, at);
      Parity(g, nodes, kept, verified) && NoRepeats(NodeIds(nodes)) && NoRepeats(verified) ==> Exact(g, nodes, kept)
  {
    if Parity(Imported(g0, nodes, kept, at), nodes, kept, verified) { ParityProvesExactness(g0, nodes, kept, verified, at); }
  }

  method DbMigrate(repo: Repository, source: Export, spotCheck: Option<string>, at: nat,
                   hashRead: bool, rec: Recording, works: bool)
    returns (r: Result<bool, MigrateError>, ghost events: seq<Event>)
    modifies repo
    // The whole command is a run of the write seam.
    ensures Does(old(repo.Value()), events, repo.Value())
    // Only a commit moves HEAD or the log, and there is at most one.
    ensures !(r == Success(true)) ==> repo.head == old(repo.head) && repo.log == old(repo.log)
    ensures r == Success(true) ==> repo.log == old(repo.log) + [Commit(Quizdom, repo.head, old(repo.head))]
    // A run that ends well has committed the import, and nothing but the import.
    ensures r.Success? ==>
              var kept, verified := DomainEdges(source.nodes, source.edges), DomainEdges(source.nodes, source.perNode);
              var g := Imported(old(repo.working.graph), source.nodes, kept, at);
              && repo.head.graph == repo.staged.graph == repo.working.graph == g
              && AllFit(source.nodes) && Passes(g, source.nodes, kept, verified, spotCheck)
              && (Exact(g, source.nodes, kept) <==> NoRepeats(NodeIds(source.nodes)) && NoRepeats(verified))
              && repo.marker == None
    // And each way it can fail has one cause; nothing else keeps it from committing.
    ensures
      var ready := BeginAccepts(old(repo.Value())) && (hashRead || old(repo.staged.graph) == old(repo.head.graph));
      var kept, verified := DomainEdges(source.nodes, source.edges), DomainEdges(source.nodes, source.perNode);
      var g := Imported(old(repo.working.graph), source.nodes, kept, at);
      var aborts, passes := Aborts(g, source.nodes, verified, spotCheck), Passes(g, source.nodes, kept, verified, spotCheck);
      && (r.Failure? && r.error.Refused? && !r.error.error.CommitFailed? <==> !ready)
      && (r.Failure? && r.error.WriteFailed? <==> ready && !AllFit(source.nodes))
      && (r.Failure? && r.error.QueryFailed? <==> ready && AllFit(source.nodes) && aborts)
      && (r.Failure? && r.error.ParityMismatch? <==> ready && AllFit(source.nodes) && !aborts && !passes)
      && (ready && AllFit(source.nodes) && passes && works ==> r.Success?)
    // With no duplicates, matching counts and edge reads, and a migrated root the query can finish
    // on (or none to check), it commits.
    ensures
      var kept, verified := DomainEdges(source.nodes, source.edges), DomainEdges(source.nodes, source.perNode);
      var g := Imported(old(repo.working.graph), source.nodes, kept, at);
      hashRead && works && BeginAccepts(old(repo.Value())) && AllFit(source.nodes) && Parity(g, source.nodes, kept, verified)
      && NoRepeats(NodeIds(source.nodes)) && NoRepeats(verified)
      && (spotCheck.Some? ==>
            && spotCheck.value in Ids(source.nodes)
            && Cte(g.edges.Keys, Begets, spotCheck.value, CTE_MAX_RECURSION_DEPTH).Some?)
      ==> r.Success?
    // With a root nobody exported, a run that gets as far as the gate fails there, and says so.
    ensures r.Failure? && r.error.ParityMismatch? && spotCheck.Some? && spotCheck.value !in Ids(source.nodes) ==>
              RootNotMigrated(spotCheck.value) in r.error.mismatches
    ensures spotCheck.Some? && spotCheck.value !in Ids(source.nodes) ==> r.Failure? && !r.error.QueryFailed?
    // A run that failed parity can simply be run again.
    ensures r.Failure? && r.error.ParityMismatch? && rec == Written ==> BeginAccepts(repo.Value())
    // And a run refused at the pre-flight has touched nothing.
    ensures r.Failure? && r.error.Refused? && !r.error.error.CommitFailed? ==> repo.Value() == old(repo.Value())
  {
    ghost var before := repo.Value();
    events := [];
    DoesNothing(before);
    var begun := repo.BeginWrite(hashRead);
    if begun.Failure? { return Failure(Refused(begun.error)), events; }
    Claims(before);
    var kept := DomainEdges(source.nodes, source.edges);
    var verified := DomainEdges(source.nodes, source.perNode);
    var ok;
    ok, events := WriteImport(repo, source.nodes, kept, at, rec, before, [Begin]);
    if !ok { return Failure(WriteFailed), events; }
    ParityMeansExact(old(repo.working.graph), source.nodes, kept, verified, at);
    var report := CheckParity(repo.working.graph, source.nodes, kept, verified, spotCheck);
    if report != Some([]) {
      StopLeads(State(repo.Value(), Ready, before));
      ClaimEnds(before, events, repo.Value(), [Crash], repo.Value());
      events := events + [Crash];
      return Failure(if report == None then QueryFailed else ParityMismatch(report.value)), events;
    }
    ParityProvesExactness(old(repo.working.graph), source.nodes, kept, verified, at);
    ghost var now, made := repo.Value(), works && repo.staged != repo.head;
    CommitLeads(State(now, Ready, before), made);
    ClaimEnds(before, events, now, CommitSteps(now, made), AfterCommit(now, made));
    events := events + CommitSteps(now, made);
    var committed := repo.CommitTables(begun.value, works);
    match committed
    case Failure(e) => r := Failure(Refused(e));
    case Success(done) => r := Success(done);
  }
}
