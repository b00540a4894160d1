/** The store's writes (dolt_store.rs): each takes the pre-flight, ships statements that stage
    themselves, and commits. The batched re-weight is proved against the per-item loop. */
module StoreWrites {
  import opened Wrappers
  import opened Tables
  import opened Chunking
  import opened SqlStatements
  import opened SqlText
  import opened SqlReading
  import opened WriteSeam
  import opened Commands
  import opened DoltRepository
  import opened Minting

  datatype StoreError = Refused(error: Error) | WriteFailed

  // ---- The re-weight, batched and looped ----

  // The loop over `update_weight_and_tags`, as the statements it sends.
  function LoopStatements(updates: seq<Arm>): (r: seq<Statement>)
    ensures |r| == |updates|
  {
    if updates == [] then []
    else
      var u := updates[|updates| - 1];
      LoopStatements(updates[..|updates| - 1]) + [UpdateNode(u.id, u.weight, u.tags)]
  }

  function CaseStatements(chunks: seq<seq<Arm>>): (r: seq<Statement>)
    ensures |r| == |chunks|
  {
    if chunks == [] then [] else CaseStatements(chunks[..|chunks| - 1]) + [CaseUpdate(chunks[|chunks| - 1])]
  }

  // The last entry of each id.
  function Latest(updates: seq<Arm>): map<string, Arm> {
    if updates == [] then map[]
    else Latest(updates[..|updates| - 1])[updates[|updates| - 1].id := updates[|updates| - 1]]
  }

  predicate EntryFits(a: Arm) { ReweightFits(a.weight, a.tags) }

  // Every entry about a row there is fits the columns.
  predicate EntriesFit(nodes: NodeTable, updates: seq<Arm>) {
    forall k :: 0 <= k < |updates| && updates[k].id in nodes ==> EntryFits(updates[k])
  }

  predicate LatestFit(nodes: NodeTable, latest: map<string, Arm>) {
    forall id :: id in latest && id in nodes ==> EntryFits(latest[id])
  }

  // The rows as the entries leave them; an id with no row changes nothing.
  function Reweigh(nodes: NodeTable, latest: map<string, Arm>): NodeTable {
    map id | id in nodes ::
      if id in latest then Reweighted(nodes[id], latest[id].weight, latest[id].tags) else nodes[id]
  }

  lemma {:induction false} LatestHas(updates: seq<Arm>)
    ensures forall id :: id in Latest(updates) ==> Latest(updates)[id].id == id && Latest(updates)[id] in updates
    ensures forall a :: a in updates ==> a.id in Latest(updates)
    decreases |updates|
  {
    if updates != [] {
      LatestHas(updates[..|updates| - 1]);
      assert updates == updates[..|updates| - 1] + [updates[|updates| - 1]];
    }
  }

  // `k` is the last entry of its id.
  ghost predicate LastEntry(updates: seq<Arm>, k: nat) {
    k < |updates| && forall j :: k < j < |updates| ==> updates[j].id != updates[k].id
  }

  lemma {:induction false} LastStands(updates: seq<Arm>, k: nat)
    requires LastEntry(updates, k)
    ensures updates[k].id in Latest(updates) && Latest(updates)[updates[k].id] == updates[k]
    decreases |updates|
  {
    if k < |updates| - 1 {
      LastStands(updates[..|updates| - 1], k);
      assert updates[|updates| - 1].id != updates[k].id;
    }
  }

  lemma {:induction false} LastExists(updates: seq<Arm>, id: string) returns (k: nat)
    requires id in Latest(updates)
    ensures LastEntry(updates, k) && updates[k].id == id
    decreases |updates|
  {
    k := |updates| - 1;
    if updates[k].id != id { k := LastExists(updates[..k], id); }
  }

  // Each row ends with the weight and the tags of its last entry, and keeps the rest; a row without
  // an entry is as it was. It is the last entries that have to fit.
  ghost predicate RowsAreLast(was: NodeTable, now: NodeTable, updates: seq<Arm>) {
    && now.Keys == was.Keys
    && (forall k: nat :: LastEntry(updates, k) && updates[k].id in was ==>
          OnlyReweighted(was[updates[k].id], now[updates[k].id], updates[k].weight, updates[k].tags))
    && (forall id :: id in was && (forall k :: 0 <= k < |updates| ==> updates[k].id != id) ==> now[id] == was[id])
  }

  lemma ReweighIsLast(nodes: NodeTable, updates: seq<Arm>)
    ensures RowsAreLast(nodes, Reweigh(nodes, Latest(updates)), updates)
  {
    LatestHas(updates);
    forall k: nat | LastEntry(updates, k) ensures updates[k].id in Latest(updates) && Latest(updates)[updates[k].id] == updates[k] {
      LastStands(updates, k);
    }
  }

  lemma LatestFitIs(nodes: NodeTable, updates: seq<Arm>)
    ensures !LatestFit(nodes, Latest(updates)) <==>
              exists k: nat :: LastEntry(updates, k) && updates[k].id in nodes
                               && (updates[k].weight > 100 || |updates[k].tags| > 2048)
  {
    forall k: nat | LastEntry(updates, k) ensures updates[k].id in Latest(updates) && Latest(updates)[updates[k].id] == updates[k] {
      LastStands(updates, k);
    }
    if id :| id in Latest(updates) && id in nodes && !EntryFits(Latest(updates)[id]) {
      var k := LastExists(updates, id);
    }
  }

  // The loop succeeds exactly when every entry about a row there is fits.
  lemma {:induction false} LoopIs(g: Graph, updates: seq<Arm>)
    ensures ExecAll(g, LoopStatements(updates)) ==
              if EntriesFit(g.nodes, updates) then Some(g.(nodes := Reweigh(g.nodes, Latest(updates)))) else None
    decreases |updates|
  {
    if updates == [] {
      assert Reweigh(g.nodes, map[]) == g.nodes;
    } else {
      var rest, u := updates[..|updates| - 1], updates[|updates| - 1];
      LoopIs(g, rest);
      ExecAllAppend(g, LoopStatements(rest), UpdateNode(u.id, u.weight, u.tags));
      EntriesFitMore(g.nodes, updates);
      if EntriesFit(g.nodes, rest) { ReweighMore(g.nodes, Latest(rest), u); }
    }
  }

  lemma EntriesFitMore(nodes: NodeTable, updates: seq<Arm>)
    requires updates != []
    ensures EntriesFit(nodes, updates) <==>
              && EntriesFit(nodes, updates[..|updates| - 1])
              && (updates[|updates| - 1].id in nodes ==> EntryFits(updates[|updates| - 1]))
  {
    var rest := updates[..|updates| - 1];
    if EntriesFit(nodes, updates) { assert forall k :: 0 <= k < |rest| ==> rest[k] == updates[k]; }
    if EntriesFit(nodes, rest) { assert forall k :: 0 <= k < |rest| ==> updates[k] == rest[k]; }
  }

  lemma ReweighMore(nodes: NodeTable, latest: map<string, Arm>, u: Arm)
    ensures
      var rows := Reweigh(nodes, latest);
      Reweigh(nodes, latest[u.id := u]) ==
        if u.id in nodes then rows[u.id := Reweighted(rows[u.id], u.weight, u.tags)] else rows
  {
  }

  // Arms as the batch builds them: one for each id.
  predicate OneArmEach(arms: seq<Arm>) {
    forall i, j :: 0 <= i < j < |arms| ==> arms[i].id != arms[j].id
  }

  lemma SameArm(arms: seq<Arm>, a: Arm, b: Arm)
    requires OneArmEach(arms) && a in arms && b in arms && a.id == b.id
    ensures a == b
  {
    var i :| 0 <= i < |arms| && arms[i] == a;
    var j :| 0 <= j < |arms| && arms[j] == b;
  }

  // With one arm each, the last entry of an id is the first arm of its `CASE`.
  lemma ArmIsLatest(arms: seq<Arm>, id: string)
    requires OneArmEach(arms)
    ensures id in Latest(arms) <==> HasArm(arms, id)
    ensures id in Latest(arms) ==> Latest(arms)[id] == FirstArm(arms, id)
  {
    LatestHas(arms);
    if id in Latest(arms) {
      var k :| 0 <= k < |arms| && arms[k] == Latest(arms)[id];
      assert HasArm(arms, id);
      SameArm(arms, Latest(arms)[id], FirstArm(arms, id));
    }
  }

  // One `UPDATE .. CASE .. WHERE id IN` statement.
  lemma CaseIs(g: Graph, arms: seq<Arm>)
    requires OneArmEach(arms)
    ensures Exec(g, CaseUpdate(arms)) ==
              if LatestFit(g.nodes, Latest(arms)) then Some(g.(nodes := Reweigh(g.nodes, Latest(arms)))) else None
  {
    forall id ensures id in Latest(arms) <==> HasArm(arms, id)
              ensures id in Latest(arms) ==> Latest(arms)[id] == FirstArm(arms, id)
    {
      ArmIsLatest(arms, id);
    }
    assert CaseFits(g, arms) <==> LatestFit(g.nodes, Latest(arms));
    assert CaseRows(g.nodes, arms) == Reweigh(g.nodes, Latest(arms));
  }

  lemma {:induction false} LatestConcat(a: seq<Arm>, b: seq<Arm>)
    ensures Latest(a + b) == Latest(a) + Latest(b)
    decreases |b|
  {
    if b == [] {
      assert a + b == a;
    } else {
      LatestConcat(a, b[..|b| - 1]);
      assert (a + b)[..|a + b| - 1] == a + b[..|b| - 1];
    }
  }

  lemma OneArmEachParts(a: seq<Arm>, b: seq<Arm>)
    requires OneArmEach(a + b)
    ensures OneArmEach(a) && OneArmEach(b) && Latest(a).Keys !! Latest(b).Keys
  {
    var all := a + b;
    assert forall i :: 0 <= i < |a| ==> all[i] == a[i];
    assert forall i :: 0 <= i < |b| ==> all[|a| + i] == b[i];
    LatestHas(a);
    LatestHas(b);
    forall i, j | 0 <= i < |a| && 0 <= j < |b| ensures a[i].id != b[j].id {
      assert all[i].id != all[|a| + j].id;
    }
  }

  // Any split of the arms into statements comes to the same rows, or fails on the same entry.
  lemma {:induction false} BatchIs(g: Graph, chunks: seq<seq<Arm>>)
    requires OneArmEach(Flatten(chunks))
    ensures
      var latest := Latest(Flatten(chunks));
      ExecAll(g, CaseStatements(chunks)) ==
        if LatestFit(g.nodes, latest) then Some(g.(nodes := Reweigh(g.nodes, latest))) else None
    decreases |chunks|
  {
    if chunks == [] {
      assert Reweigh(g.nodes, map[]) == g.nodes;
    } else {
      var rest, last := chunks[..|chunks| - 1], chunks[|chunks| - 1];
      assert chunks == rest + [last];
      FlattenAppend(rest, last);
      OneArmEachParts(Flatten(rest), last);
      BatchIs(g, rest);
      ExecAllAppend(g, CaseStatements(rest), CaseUpdate(last));
      LatestConcat(Flatten(rest), last);
      var a, b := Latest(Flatten(rest)), Latest(last);
      LatestFitSplit(g.nodes, a, b);
      if LatestFit(g.nodes, a) {
        CaseIs(g.(nodes := Reweigh(g.nodes, a)), last);
        ReweighTwice(g.nodes, a, b);
      }
    }
  }

  lemma LatestFitSplit(nodes: NodeTable, a: map<string, Arm>, b: map<string, Arm>)
    requires a.Keys !! b.Keys
    ensures LatestFit(nodes, a + b) <==> LatestFit(nodes, a) && LatestFit(nodes, b)
  {
    if LatestFit(nodes, a + b) {
      forall id | id in a && id in nodes ensures EntryFits(a[id]) { assert (a + b)[id] == a[id]; }
      forall id | id in b && id in nodes ensures EntryFits(b[id]) { assert (a + b)[id] == b[id]; }
    }
  }

  lemma ReweighTwice(nodes: NodeTable, a: map<string, Arm>, b: map<string, Arm>)
    requires a.Keys !! b.Keys
    ensures Reweigh(Reweigh(nodes, a), b) == Reweigh(nodes, a + b)
    ensures LatestFit(Reweigh(nodes, a), b) <==> LatestFit(nodes, b)
  {
  }

  // Whenever the loop over the entries succeeds, so does the batch, with the same rows. The
  // batch succeeds where the loop fails exactly when all that does not fit is overridden by a
  // later entry of the same id, for a row that is there.
  lemma BatchAgreesWithLoop(g: Graph, updates: seq<Arm>, chunks: seq<seq<Arm>>)
    requires OneArmEach(Flatten(chunks)) && Latest(Flatten(chunks)) == Latest(updates)
    ensures
      var loop, batch := ExecAll(g, LoopStatements(updates)), ExecAll(g, CaseStatements(chunks));
      && (loop.Some? ==> batch == loop)
      && (loop.None? && batch.Some? <==>
            && LatestFit(g.nodes, Latest(updates))
            && exists k :: 0 <= k < |updates| && updates[k].id in g.nodes && !EntryFits(updates[k]))
  {
    LoopIs(g, updates);
    BatchIs(g, chunks);
    LatestHas(updates);
    if EntriesFit(g.nodes, updates) {
      forall id | id in Latest(updates) && id in g.nodes ensures EntryFits(Latest(updates)[id]) {
        var k :| 0 <= k < |updates| && updates[k] == Latest(updates)[id];
      }
    }
  }

  // The concrete difference: a weight no row may have, corrected by a later entry of the list.
  lemma CorrectedEntryOnlyStopsTheLoop(node: Node)
    ensures
      var g := Graph(map["Q-1" := node], map[]);
      var bad, good := Arm("Q-1", MAX_WEIGHT + 1, ""), Arm("Q-1", MAX_WEIGHT, "");
      && ExecAll(g, LoopStatements([bad, good])) == None
      && ExecAll(g, CaseStatements([[good]])).Some?
  {
    var g := Graph(map["Q-1" := node], map[]);
    var bad, good := Arm("Q-1", MAX_WEIGHT + 1, ""), Arm("Q-1", MAX_WEIGHT, "");
    LoopIs(g, [bad, good]);
    assert !EntriesFit(g.nodes, [bad, good]) by { assert [bad, good][0] == bad && !EntryFits(bad); }
    assert Flatten([[good]]) == [good];
    BatchIs(g, [[good]]);
    LatestHas([good]);
  }

  // ---- The store ----

  class DoltStore {
    const repo: Repository
    // Set once this process has committed a graph write.
    var graphWritten: bool

    constructor (repo: Repository)
      ensures this.repo == repo && !graphWritten
    {
      this.repo := repo;
      graphWritten := false;
    }

    // The commit tail of every write, and what it remembers.
    method Commit(claim: WriteClaim, works: bool) returns (r: Result<(), StoreError>)
      modifies this, repo
      ensures r.Success? <==> (works && old(repo.staged) != old(repo.head)) || GraphClean(old(repo.Value()))
      ensures r.Success? ==> repo.head.graph == old(repo.staged.graph) && repo.marker == None
      ensures r.Success? ==> repo.staged == old(repo.staged) && repo.working == old(repo.working)
      ensures repo.Value() == AfterCommit(old(repo.Value()), works && old(repo.staged) != old(repo.head))
      ensures r.Failure? ==> r.error.Refused? && repo.Value() == old(repo.Value())
      ensures repo.log == old(repo.log) || repo.log == old(repo.log) + [WriteSeam.Commit(Quizdom, repo.head, old(repo.head))]
      ensures graphWritten <==> old(graphWritten) || repo.log != old(repo.log)
    {
      var committed := repo.CommitTables(claim, works);
      match committed
      case Failure(e) => return Failure(Refused(e));
      case Success(made) =>
        if made { graphWritten := true; }
        return Success(());
    }

    // What follows a claim whose statements have landed: the commit, and the steps it makes.
    method Finish(claim: WriteClaim, works: bool, ghost before: Repo, ghost sofar: seq<Event>)
      returns (r: Result<(), StoreError>, ghost events: seq<Event>)
      requires Claimed(before, sofar, repo.Value()) && repo.staged.graph == repo.working.graph
      modifies this, repo
      ensures Does(before, events, repo.Value())
      ensures r.Success? <==> works || repo.staged.graph == old(repo.head.graph)
      ensures r.Success? ==> repo.head.graph == repo.staged.graph == repo.working.graph == old(repo.working.graph)
      ensures r.Success? ==> BeginAccepts(repo.Value())
      ensures r.Failure? ==> r.error.Refused? && repo.Value() == old(repo.Value())
      ensures repo.log == old(repo.log) || repo.log == old(repo.log) + [WriteSeam.Commit(Quizdom, repo.head, old(repo.head))]
      ensures graphWritten <==> old(graphWritten) || repo.log != old(repo.log)
    {
      ghost var now, made := repo.Value(), works && repo.staged != repo.head;
      CommitLeads(State(now, Ready, before), made);
      ClaimEnds(before, sofar, now, CommitSteps(now, made), AfterCommit(now, made));
      events := sofar + CommitSteps(now, made);
      r := Commit(claim, works);
    }

    // A write of one statement: `create_edge`, `ensure_edge`, `update_weight_and_tags`. It goes
    // to the engine as text; `at` is the engine's clock.
    method WriteOne(s: Statement, at: nat, hashRead: bool, rec: Recording, works: bool)
      returns (r: Result<(), StoreError>, ghost events: seq<Event>)
      requires Sent(s, at)
      modifies this, repo
      ensures Does(old(repo.Value()), events, repo.Value())
      ensures r.Success? ==> Exec(old(repo.working.graph), s) == Some(repo.head.graph)
      ensures r.Success? ==> repo.staged.graph == repo.working.graph == repo.head.graph && BeginAccepts(repo.Value())
      ensures hashRead && works && BeginAccepts(old(repo.Value())) ==>
                (r.Success? <==> Exec(old(repo.working.graph), s).Some?)
      ensures r.Failure? ==> repo.head == old(repo.head) && repo.log == old(repo.log)
      ensures graphWritten <==> old(graphWritten) || repo.log != old(repo.log)
      ensures |repo.log| <= |old(repo.log)| + 1
    {
      ghost var before := repo.Value();
      DoesNothing(before);
      events := [];
      var claim := repo.BeginWrite(hashRead);
      if claim.Failure? { return Failure(Refused(claim.error)), events; }
      Claims(before);
      OneStatement(repo.working.graph, s, at);
      var ok;
      ok, events := RunOne(repo, StatementText(Render(s)), at, rec, [s], before, [Begin]);
      if !ok { return Failure(WriteFailed), events; }
      r, events := Finish(claim.value, works, before, events);
    }

    // Mint an id and insert the node under it.
    method CreateNode(prefix: string, node: Node, at: nat, hashRead: bool, rec: Recording, works: bool)
      returns (r: Result<string, StoreError>, ghost events: seq<Event>)
      modifies this, repo
      ensures Does(old(repo.Value()), events, repo.Value())
      ensures r.Success? ==>
                && r.value !in old(repo.working.graph.nodes)
                && repo.head.graph == old(repo.working.graph).(nodes := old(repo.working.graph.nodes)[r.value := node])
      ensures r.Success? ==> exists max :: Highest(prefix, old(repo.working.graph.nodes.Keys), max) && r.value == Minted(prefix, max)
      ensures hashRead && works && BeginAccepts(old(repo.Value())) && r.Failure? ==>
                exists max :: Highest(prefix, old(repo.working.graph.nodes.Keys), max)
                              && Exec(old(repo.working.graph), InsertNode(Minted(prefix, max), node)) == None
      ensures r.Failure? ==> repo.head == old(repo.head) && repo.log == old(repo.log)
    {
      var rows := Listed(repo.working.graph.nodes.Keys);
      var max := HighestSuffix(prefix, rows);
      assert IdSet(rows) == repo.working.graph.nodes.Keys;
      var id, w := Minted(prefix, max), Failure(WriteFailed);
      w, events := WriteOne(InsertNode(id, node), at, hashRead, rec, works);
      match w
      case Failure(e) => r := Failure(e);
      case Success(_) => r := Success(id);
    }

    // Re-weight many rows in one commit.
    method UpdateWeights(updates: seq<Arm>, at: nat, hashRead: bool, rec: Recording, works: bool)
      returns (r: Result<(), StoreError>, ghost events: seq<Event>)
      modifies this, repo
      ensures Does(old(repo.Value()), events, repo.Value())
      // It does what the loop does, in one commit.
      ensures r.Success? && updates != [] && ExecAll(old(repo.working.graph), LoopStatements(updates)).Some? ==>
                Some(repo.head.graph) == ExecAll(old(repo.working.graph), LoopStatements(updates))
      ensures r.Success? && updates != [] ==>
                repo.head.graph == old(repo.working.graph).(nodes := Reweigh(old(repo.working.graph.nodes), Latest(updates)))
      // Each row there is ends as its last entry says, and nothing else changes.
      ensures r.Success? && updates != [] ==>
                && repo.head.graph.edges == old(repo.working.graph.edges)
                && RowsAreLast(old(repo.working.graph.nodes), repo.head.graph.nodes, updates)
      ensures r.Failure? && r.error.WriteFailed? ==>
                exists k: nat :: LastEntry(updates, k) && updates[k].id in old(repo.working.graph.nodes)
                                 && (updates[k].weight > 100 || |updates[k].tags| > 2048)
      ensures updates == [] ==> r.Success? && repo.Value() == old(repo.Value())
      ensures hashRead && works && BeginAccepts(old(repo.Value())) ==>
                (r.Success? <==> LatestFit(old(repo.working.graph.nodes), Latest(updates)))
      ensures r.Failure? && r.error.WriteFailed? ==> !LatestFit(old(repo.working.graph.nodes), Latest(updates))
      ensures r.Failure? ==> repo.head == old(repo.head) && repo.log == old(repo.log)
      ensures |repo.log| <= |old(repo.log)| + 1
    {
      ghost var before, g := repo.Value(), repo.working.graph;
      DoesNothing(before);
      events := [];
      var latest := LatestOf(updates);
      LatestHas(updates);
      ReweighIsLast(g.nodes, updates);
      LatestFitIs(g.nodes, updates);
      assert updates != [] ==> updates[0].id in latest;
      if latest == map[] { return Success(()), events; }
      var claim := repo.BeginWrite(hashRead);
      if claim.Failure? { return Failure(Refused(claim.error)), events; }
      Claims(before);
      var arms := ArmsOf(latest);
      var chunks := ChunkBySqlBytes(arms, arm => ArmBytes(arm));
      BatchAgreesWithLoop(g, updates, chunks);
      BatchIs(g, chunks);
      var ok;
      ok, events := RunChunks(chunks, at, rec, before, [Begin]);
      if !ok { return Failure(WriteFailed), events; }
      r, events := Finish(claim.value, works, before, events);
    }

    // One self-staging statement a chunk.
    method RunChunks(chunks: seq<seq<Arm>>, at: nat, rec: Recording, ghost before: Repo, ghost sofar: seq<Event>)
      returns (ok: bool, ghost events: seq<Event>)
      requires forall k :: 0 <= k < |chunks| ==> chunks[k] != []
      requires Claimed(before, sofar, repo.Value()) && repo.staged.graph == repo.working.graph
      modifies repo
      ensures repo.head == old(repo.head) && repo.log == old(repo.log)
      ensures ok <==> ExecAll(old(repo.working.graph), CaseStatements(chunks)).Some?
      ensures ok ==> Some(repo.working.graph) == ExecAll(old(repo.working.graph), CaseStatements(chunks))
      ensures ok ==> repo.staged.graph == repo.working.graph
      ensures if ok then Claimed(before, events, repo.Value()) else Does(before, events, repo.Value())
    {
      var texts := seq(|chunks|, k requires 0 <= k < |chunks| => CaseText(chunks[k]));
      ghost var parts := seq(|chunks|, k requires 0 <= k < |chunks| => [CaseUpdate(chunks[k])]);
      forall k | 0 <= k < |texts| ensures IsBatch(texts[k], at, parts[k]) {
        CaseTextIsBatch(chunks[k], at);
      }
      PartsAreCases(chunks, parts);
      ok, events := RunAll(repo, texts, at, rec, parts, before, sofar);
    }
  }

  lemma OneStatement(g: Graph, s: Statement, at: nat)
    requires Sent(s, at)
    ensures ExecAll(g, [s]) == Exec(g, s) && IsBatch(StatementText(Render(s)), at, [s])
  {
    OneText(s, at);
    ExecAllAppend(g, [], s);
    assert [] + [s] == [s];
  }

  lemma {:induction false} PartsAreCases(chunks: seq<seq<Arm>>, parts: seq<seq<Statement>>)
    requires |parts| == |chunks| && forall k :: 0 <= k < |chunks| ==> parts[k] == [CaseUpdate(chunks[k])]
    ensures Flatten(parts) == CaseStatements(chunks)
    decreases |chunks|
  {
    if chunks != [] {
      var last := |chunks| - 1;
      PartsAreCases(chunks[..last], parts[..last]);
      FlattenAppend(parts[..last], parts[last]);
      assert parts == parts[..last] + [parts[last]];
    }
  }

  // A set's elements as a list.
  method Listed(s: set<string>) returns (list: seq<string>)
    ensures IdSet(list) == s
  {
    list := [];
    var left := s;
    while left != {}
      invariant IdSet(list) + left == s
      decreases |left|
    {
      var x :| x in left;
      assert IdSet(list + [x]) == IdSet(list) + {x};
      list, left := list + [x], left - {x};
    }
  }

  // Last entry per id wins.
  method LatestOf(updates: seq<Arm>) returns (latest: map<string, Arm>)
    ensures latest == Latest(updates)
  {
    latest := map[];
    for i := 0 to |updates|
      invariant latest == Latest(updates[..i])
    {
      assert updates[..i + 1][..i] == updates[..i];
      latest := latest[updates[i].id := updates[i]];
    }
    assert updates[..|updates|] == updates;
  }

  // What is left to list, one entry at a time.
  ghost predicate ListedExcept(latest: map<string, Arm>, left: set<string>, arms: seq<Arm>) {
    OneArmEach(arms) && left <= latest.Keys && Latest(arms) == latest - left
  }

  lemma ListOne(latest: map<string, Arm>, left: set<string>, arms: seq<Arm>, id: string)
    requires ListedExcept(latest, left, arms) && id in left && latest[id].id == id
    ensures ListedExcept(latest, left - {id}, arms + [latest[id]])
  {
    LatestHas(arms);
    assert forall k :: 0 <= k < |arms| ==> arms[k] in arms;
    assert (arms + [latest[id]])[..|arms|] == arms;
    assert (latest - left)[id := latest[id]] == latest - (left - {id});
  }

  // The map's entries as arms, one for each id.
  method ArmsOf(latest: map<string, Arm>) returns (arms: seq<Arm>)
    requires forall id :: id in latest ==> latest[id].id == id
    ensures OneArmEach(arms) && Latest(arms) == latest
  {
    arms := [];
    var left := latest.Keys;
    assert latest - latest.Keys == map[];
    while left != {}
      invariant ListedExcept(latest, left, arms)
      decreases |left|
    {
      var id :| id in left;
      ListOne(latest, left, arms, id);
      arms, left := arms + [latest[id]], left - {id};
    }
    assert latest - {} == latest;
  }
}
