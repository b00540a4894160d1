/** The repository quizdom's commands act on, and the write seam as db_init.rs runs it:
    each method is tied to the steps of `WriteSeam`. */
module DoltRepository {
  import opened Wrappers
  import opened Tables
  import opened Chunking
  import opened SqlReading
  import opened WriteSeam
  import opened Commands

  // A row of `dolt_status`: a table appears once for what is staged, once for what is not.
  datatype StatusRow = StatusRow(table: string, staged: bool)

  datatype WriteClaim = WriteClaim(resumed: seq<string>)

  datatype Error = ForeignChange(tables: seq<string>) | UnrecognisedStaged(tables: seq<string>) | SqlFailed | CommitFailed

  const NODES := "nodes"
  const EDGES := "edges"

  predicate Differs(table: string, a: Graph, b: Graph) {
    || (table == NODES && a.nodes != b.nodes)
    || (table == EDGES && a.edges != b.edges)
  }

  // What the status query scoped to quizdom's tables may answer, in any order.
  predicate IsStatus(rows: seq<StatusRow>, repo: Repo) {
    && (forall row :: row in rows ==>
          if row.staged then Differs(row.table, repo.staged.graph, repo.head.graph)
          else Differs(row.table, repo.working.graph, repo.staged.graph))
    && (forall t :: t in {NODES, EDGES} ==>
          && (Differs(t, repo.staged.graph, repo.head.graph) ==> StatusRow(t, true) in rows)
          && (Differs(t, repo.working.graph, repo.staged.graph) ==> StatusRow(t, false) in rows))
  }

  // The tables of a status answer, split into staged and unstaged, each named once.
  method UncommittedTables(rows: seq<StatusRow>) returns (staged: seq<string>, unstaged: seq<string>)
    ensures forall t :: t in staged <==> StatusRow(t, true) in rows
    ensures forall t :: t in unstaged <==> StatusRow(t, false) in rows
    ensures NoRepeats(staged) && NoRepeats(unstaged)
  {
    staged, unstaged := [], [];
    for i := 0 to |rows|
      invariant forall t :: t in staged <==> StatusRow(t, true) in rows[..i]
      invariant forall t :: t in unstaged <==> StatusRow(t, false) in rows[..i]
      invariant NoRepeats(staged) && NoRepeats(unstaged)
    {
      assert rows[..i + 1] == rows[..i] + [rows[i]];
      var name := rows[i].table;
      if rows[i].staged {
        if name !in staged { staged := staged + [name]; }
      } else {
        if name !in unstaged { unstaged := unstaged + [name]; }
      }
    }
  }

  // The working graph a failed batch leaves: its statements up to the one that failed.
  function BrokenBatch(g: Graph, batch: seq<Statement>): Graph
    requires ExecAll(g, batch).None?
  {
    var rest := batch[..|batch| - 1];
    match ExecAll(g, rest)
    case Some(mid) => mid
    case None => BrokenBatch(g, rest)
  }

  lemma {:induction false} BrokenBatchMore(g: Graph, batch: seq<Statement>, k: nat)
    requires k < |batch|
    requires ExecAll(g, batch[..k]).Some? && ExecAll(g, batch[..k + 1]).None?
    ensures ExecAll(g, batch).None?
    ensures BrokenBatch(g, batch) == ExecAll(g, batch[..k]).value
    decreases |batch|
  {
    var rest := batch[..|batch| - 1];
    if k + 1 == |batch| {
      assert batch[..k + 1] == batch && batch[..k] == rest;
    } else {
      assert rest[..k] == batch[..k] && rest[..k + 1] == batch[..k + 1];
      BrokenBatchMore(g, rest, k);
    }
  }

  // The same failure as steps of the machine: the statements up to the one that fails.
  function BrokenSteps(g: Graph, batch: seq<Statement>): seq<Event>
    requires ExecAll(g, batch).None?
  {
    var rest := batch[..|batch| - 1];
    if ExecAll(g, rest).Some? then Applies(batch) else BrokenSteps(g, rest)
  }

  lemma {:induction false} BrokenLeads(s: State, batch: seq<Statement>)
    requires s.phase == Ready && ExecAll(s.repo.working.graph, batch).None?
    ensures
      var g := s.repo.working.graph;
      LeadsTo(s, BrokenSteps(g, batch),
              State(s.repo.(working := s.repo.working.(graph := BrokenBatch(g, batch))), Idle, s.seen))
    decreases |batch|
  {
    var g, rest, last := s.repo.working.graph, batch[..|batch| - 1], batch[|batch| - 1];
    if ExecAll(g, rest).Some? {
      AppliesRun(s, rest);
      AppliesPossible(s, rest);
      PossibleAppend(s, Applies(rest), Apply(last));
    } else {
      BrokenLeads(s, rest);
    }
  }

  // What the engine understands by a text as it is sent.
  method Script(sql: string, at: nat, ghost batch: seq<Statement>) returns (script: seq<Command>)
    requires IsBatch(sql, at, batch)
    ensures script == Writes(batch) + StagingCommands()
  {
    BatchIsUnderstood(sql, at, batch);
    script := Understood(StagingWrite(sql), at).value;
  }

  class Repository {
    var head: Root
    var staged: Root
    var working: Root
    var marker: Option<Root>
    var log: seq<Commit>

    constructor (root: Root)
      ensures Value() == Repo(root, root, root, None, [])
    {
      head, staged, working := root, root, root;
      marker, log := None, [];
    }

    function Value(): Repo
      reads this
    {
      Repo(head, staged, working, marker, log)
    }

    method Status() returns (rows: seq<StatusRow>)
      ensures IsStatus(rows, Value())
    {
      rows := [];
      if staged.graph.nodes != head.graph.nodes { rows := rows + [StatusRow(NODES, true)]; }
      if staged.graph.edges != head.graph.edges { rows := rows + [StatusRow(EDGES, true)]; }
      if working.graph.nodes != staged.graph.nodes { rows := rows + [StatusRow(NODES, false)]; }
      if working.graph.edges != staged.graph.edges { rows := rows + [StatusRow(EDGES, false)]; }
    }

    // `hashRead`: whether the fingerprint query answered.
    method StagedIsOurs(hashRead: bool) returns (ours: bool)
      ensures ours <==> hashRead && marker == Some(staged)
    {
      ours := match marker case None => false case Some(recorded) => hashRead && recorded == staged;
    }

    // The pre-flight. It changes nothing, and it accepts exactly what the seam accepts.
    method BeginWrite(hashRead: bool) returns (r: Result<WriteClaim, Error>)
      ensures r.Success? <==> BeginAccepts(Value()) && (hashRead || staged.graph == head.graph)
      ensures r.Success? ==> forall t :: t in r.value.resumed <==> Differs(t, staged.graph, head.graph)
      ensures working.graph != staged.graph <==> r.Failure? && r.error.ForeignChange?
      ensures working.graph != staged.graph ==>
                forall t :: t in r.error.tables <==> Differs(t, working.graph, staged.graph)
      ensures r.Failure? && working.graph == staged.graph ==>
                r.error.UnrecognisedStaged? && forall t :: t in r.error.tables <==> Differs(t, staged.graph, head.graph)
      // So a refusal names `nodes`, `edges` or both, whichever is in the way.
      ensures r.Failure? ==>
                && (forall t :: t in r.error.tables ==> t == "nodes" || t == "edges")
                && ("nodes" in r.error.tables <==>
                      if r.error.ForeignChange? then working.graph.nodes != staged.graph.nodes
                      else staged.graph.nodes != head.graph.nodes)
                && ("edges" in r.error.tables <==>
                      if r.error.ForeignChange? then working.graph.edges != staged.graph.edges
                      else staged.graph.edges != head.graph.edges)
    {
      var rows := Status();
      var stagedTables, unstaged := UncommittedTables(rows);
      if unstaged != [] {
        assert unstaged[0] in unstaged;
        return Failure(ForeignChange(unstaged));
      }
      assert working.graph == staged.graph by {
        assert StatusRow(NODES, false) !in rows && StatusRow(EDGES, false) !in rows;
      }
      if stagedTables != [] {
        assert stagedTables[0] in stagedTables;
        var ours := StagedIsOurs(hashRead);
        if !ours { return Failure(UnrecognisedStaged(stagedTables)); }
      }
      if stagedTables == [] {
        assert StatusRow(NODES, true) !in rows && StatusRow(EDGES, true) !in rows;
      }
      return Success(WriteClaim(stagedTables));
    }

    // `answer` is the fingerprint the write's output carried, if any; `written` says whether
    // the marker file could be replaced.
    method RecordStaged(answer: Option<Root>, written: bool)
      modifies this`marker
      ensures marker == match answer { case None => None case Some(hash) => if written then Some(hash) else old(marker) }
    {
      match answer
      case None => marker := None;
      case Some(hash) => if written { marker := answer; }
    }

    method ClearStaged()
      modifies this`marker
      ensures marker == None
    {
      marker := None;
    }

    // `CALL DOLT_ADD(..)`.
    method AddNamed(tables: seq<string>)
      modifies this`staged
      ensures Value() == AddTables(old(Value()), NODES in tables, EDGES in tables,
                                   set t | t in tables && t != NODES && t != EDGES)
    {
      staged := AddTables(Value(), NODES in tables, EDGES in tables, set t | t in tables && t != NODES && t != EDGES).staged;
    }

    // The statements a script starts with, up to one that fails.
    method RunWrites(script: seq<Command>, ghost batch: seq<Statement>) returns (ok: bool)
      requires script == Writes(batch) + StagingCommands()
      modifies this`working
      ensures ok <==> ExecAll(old(working.graph), batch).Some?
      ensures working == old(working).(graph :=
                if ok then ExecAll(old(working.graph), batch).value else BrokenBatch(old(working.graph), batch))
    {
      ghost var g0 := working.graph;
      var i := 0;
      while i < |script| && script[i].Write?
        invariant i <= |batch| && ExecAll(g0, batch[..i]).Some?
        invariant working == old(working).(graph := ExecAll(g0, batch[..i]).value)
      {
        assert i < |batch| && script[i] == Write(batch[i]);
        assert batch[..i + 1] == batch[..i] + [batch[i]];
        ExecAllAppend(g0, batch[..i], batch[i]);
        match Exec(working.graph, script[i].statement)
        case None =>
          BrokenBatchMore(g0, batch, i);
          return false;
        case Some(g) =>
          working := working.(graph := g);
          i := i + 1;
      }
      assert i == |batch| && batch[..i] == batch;
      ok := true;
    }

    // What a script asks for after its statements: tables to stage, and what is staged then.
    method RunStaging(script: seq<Command>, rec: Recording) returns (answer: Option<Root>)
      requires |script| >= 2 && script[|script| - 2] == Add(["nodes", "edges"])
      requires script[|script| - 1] == Hash("STAGED", "staged_hash")
      modifies this`staged
      ensures Value() == StageGraph(old(Value()))
      ensures answer == if rec.Unreadable? then None else Some(staged)
    {
      AddsGraph(Value());
      AddNamed(script[|script| - 2].tables);
      var last := script[|script| - 1];
      answer := if last.of == "STAGED" && last.name == "staged_hash" && !rec.Unreadable? then Some(staged) else None;
    }

    // One `dolt sql` call: everything the engine understands by the text sent, the statements of
    // `batch`, then the staging, then the fingerprint; and then its record.
    method RunStagingWrite(sql: string, at: nat, rec: Recording, ghost batch: seq<Statement>) returns (ok: bool)
      requires IsBatch(sql, at, batch)
      modifies this
      ensures ok <==> AfterBatch(old(Value()), batch, rec).Some?
      ensures ok ==> Value() == AfterBatch(old(Value()), batch, rec).value
      ensures !ok ==> Value() == old(Value()).(working :=
                        old(working).(graph := BrokenBatch(old(working.graph), batch)))
    {
      var script := Script(sql, at, batch);
      ok := RunWrites(script, batch);
      if ok {
        var answer := RunStaging(script, rec);
        RecordStaged(answer, rec.Written?);
      }
    }

    // Whether `dolt_status` is empty for quizdom's tables, or (`whole`) for every table.
    method WorkingSetIsClean(whole: bool) returns (clean: bool)
      ensures clean <==> if whole then staged == head && working == staged else GraphClean(Value())
    {
      var rows := Status();
      if rows != [] {
        assert rows[0] in rows;
        return false;
      }
      assert StatusRow(NODES, false) !in rows && StatusRow(EDGES, false) !in rows;
      assert StatusRow(NODES, true) !in rows && StatusRow(EDGES, true) !in rows;
      clean := !whole || (staged.other == head.other && working.other == staged.other);
    }

    // `works`: whether `dolt commit` can commit at all (an author identity is configured). A
    // refusal counts as success when the status says there was nothing to commit.
    method CommitStagedRoot(author: Author, whole: bool, works: bool) returns (r: Result<bool, Error>)
      modifies this`head, this`log
      ensures works || staged == old(head) ==> Value() == CommitStaged(old(Value()), author)
      ensures !works ==> Value() == old(Value())
      ensures works && staged != old(head) ==> r == Success(true)
      ensures !(works && staged != old(head)) ==>
                r == if (if whole then staged == head && working == staged else GraphClean(Value()))
                     then Success(false) else Failure(CommitFailed)
    {
      if works && staged != head {
        log := log + [Commit(author, staged, head)];
        head := staged;
        return Success(true);
      }
      var clean := WorkingSetIsClean(whole);
      return if clean then Success(false) else Failure(CommitFailed);
    }

    // The commit tail every quizdom writer shares. Only a claim gets here.
    method CommitTables(claim: WriteClaim, works: bool) returns (r: Result<bool, Error>)
      modifies this
      ensures r == Success(true) <==> works && old(staged) != old(head)
      ensures r == Success(true) ==> Value() == CommitStaged(old(Value()), Quizdom).(marker := None)
      ensures r == Success(false) <==> !(works && old(staged) != old(head)) && GraphClean(old(Value()))
      ensures r == Success(false) ==> Value() == old(Value()).(marker := None)
      ensures r.Failure? ==> r.error == CommitFailed && Value() == old(Value())
      ensures Value() == AfterCommit(old(Value()), works && old(staged) != old(head))
    {
      r := CommitStagedRoot(Quizdom, false, works);
      if r.Success? { ClearStaged(); }
    }

    // `db-backup`'s snapshot: everything, under a message that claims nothing. A commit that
    // fails leaves everything staged.
    method CommitWorkingSet(works: bool) returns (r: Result<bool, Error>)
      modifies this
      ensures works ==> Value() == CommitStaged(old(Value()).(staged := old(working)), Snapshot)
      ensures works ==> r == Success(old(working) != old(head)) && head == old(working)
      ensures !works ==> Value() == old(Value()).(staged := old(working))
      ensures !works ==> r == if old(working) == old(head) then Success(false) else Failure(CommitFailed)
    {
      staged := working;
      r := CommitStagedRoot(Snapshot, true, works);
    }
  }

  // Everything but quizdom's working and staged rows and the marker is as it was.
  predicate OnlyRowsMoved(before: Repo, after: Repo) {
    && after.head == before.head && after.log == before.log
    && after.staged.other == before.staged.other && after.working.other == before.working.other
  }

  // One part further; a part that fails, fails the whole.
  lemma OneMorePart(g0: Graph, parts: seq<seq<Statement>>, k: nat, g: Graph)
    requires k < |parts| && ExecAll(g0, Flatten(parts[..k])) == Some(g)
    ensures ExecAll(g0, Flatten(parts[..k + 1])) == ExecAll(g, parts[k])
    ensures ExecAll(g, parts[k]).None? ==> ExecAll(g0, Flatten(parts)).None?
  {
    FlattenPrefix(parts, k);
    ExecAllConcat(g0, Flatten(parts[..k]), parts[k]);
    assert parts == parts[..k + 1] + parts[k + 1..];
    FlattenConcat(parts[..k + 1], parts[k + 1..]);
    ExecAllConcat(g0, Flatten(parts[..k + 1]), Flatten(parts[k + 1..]));
  }

  // Naming quizdom's two tables stages them, and nothing else.
  lemma AddsGraph(repo: Repo)
    ensures NODES in ["nodes", "edges"] && EDGES in ["nodes", "edges"]
    ensures (set t | t in ["nodes", "edges"] && t != NODES && t != EDGES) == {}
    ensures AddTables(repo, true, true, {}) == StageGraph(repo)
  {
    assert AddTables(repo, true, true, {}).staged.other == repo.staged.other;
  }

  // Within one claim, one text shipped; `events` are the steps taken since the claim.
  method RunOne(repo: Repository, text: string, at: nat, rec: Recording,
                ghost batch: seq<Statement>, ghost before: Repo, ghost sofar: seq<Event>)
    returns (ok: bool, ghost events: seq<Event>)
    requires IsBatch(text, at, batch)
    requires Claimed(before, sofar, repo.Value())
    modifies repo
    ensures OnlyRowsMoved(old(repo.Value()), repo.Value())
    ensures ok <==> ExecAll(old(repo.working.graph), batch).Some?
    ensures ok ==> repo.working.graph == ExecAll(old(repo.working.graph), batch).value
    ensures ok ==> repo.staged.graph == repo.working.graph
    ensures if ok then Claimed(before, events, repo.Value()) else Does(before, events, repo.Value())
    ensures ok && rec == Written ==> BeginAccepts(repo.Value())
  {
    ghost var now := repo.Value();
    ok := repo.RunStagingWrite(text, at, rec, batch);
    if ok {
      BatchLeads(State(now, Ready, before), batch, rec);
      ClaimGoesOn(before, sofar, now, BatchSteps(batch, rec), repo.Value());
      events := sofar + BatchSteps(batch, rec);
    } else {
      BrokenLeads(State(now, Ready, before), batch);
      ClaimEnds(before, sofar, now, BrokenSteps(now.working.graph, batch), repo.Value());
      events := sofar + BrokenSteps(now.working.graph, batch);
    }
  }

  // Texts shipped one after the other, each staging and recording itself: as `db-migrate` ships
  // its batches and the batched re-weight its statements.
  method RunAll(repo: Repository, texts: seq<string>, at: nat, rec: Recording,
                ghost parts: seq<seq<Statement>>, ghost before: Repo, ghost sofar: seq<Event>)
    returns (ok: bool, ghost events: seq<Event>)
    requires |parts| == |texts| && forall k :: 0 <= k < |texts| ==> IsBatch(texts[k], at, parts[k])
    requires Claimed(before, sofar, repo.Value()) && repo.staged.graph == repo.working.graph
    modifies repo
    ensures OnlyRowsMoved(old(repo.Value()), repo.Value())
    ensures ok <==> ExecAll(old(repo.working.graph), Flatten(parts)).Some?
    ensures ok ==> repo.working.graph == ExecAll(old(repo.working.graph), Flatten(parts)).value
    ensures ok ==> repo.staged.graph == repo.working.graph
    ensures if ok then Claimed(before, events, repo.Value()) else Does(before, events, repo.Value())
    ensures ok && rec == Written && BeginAccepts(old(repo.Value())) ==> BeginAccepts(repo.Value())
  {
    ghost var g0 := repo.working.graph;
    events := sofar;
    assert parts[..|parts|] == parts;
    for k := 0 to |texts|
      invariant OnlyRowsMoved(old(repo.Value()), repo.Value())
      invariant ExecAll(g0, Flatten(parts[..k])) == Some(repo.working.graph)
      invariant repo.staged.graph == repo.working.graph
      invariant Claimed(before, events, repo.Value())
      invariant rec == Written && BeginAccepts(old(repo.Value())) ==> BeginAccepts(repo.Value())
    {
      OneMorePart(g0, parts, k, repo.working.graph);
      ok, events := RunOne(repo, texts[k], at, rec, parts[k], before, events);
      if !ok { return; }
    }
    ok := true;
  }
}
