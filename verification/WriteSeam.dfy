/** The Dolt write seam (db_init.rs): who may commit what, over every run of quizdom,
    of a user editing the same repository by hand, and of crashes.

    Dolt's `DOLT_HASHOF_DB('STAGED')` is modelled by the staged root itself, an injective
    hash. A marker that cannot be read, or matches no root, is `None`. */
module WriteSeam {
  import opened Wrappers
  import opened Tables

  // Everything a Dolt root holds: quizdom's two tables, and any other table by name.
  datatype Root = Root(graph: Graph, other: map<string, string>)

  datatype Author = Quizdom | Snapshot | Hand

  datatype Commit = Commit(author: Author, root: Root, parent: Root)

  datatype Repo = Repo(head: Root, staged: Root, working: Root, marker: Option<Root>, log: seq<Commit>)

  // What happened to the marker after a staging write: written; removed because no
  // fingerprint came back; or not written, so that the earlier marker is still there.
  datatype Recording = Written | Unreadable | WriteLost

  function Marked(marker: Option<Root>, staged: Root, r: Recording): Option<Root> {
    match r
    case Written => Some(staged)
    case Unreadable => None
    case WriteLost => marker
  }

  // `CALL DOLT_ADD('nodes', 'edges')`: table-granular, and never another table.
  function StageGraph(repo: Repo): Repo {
    repo.(staged := repo.staged.(graph := repo.working.graph))
  }

  // `dolt commit` records the staged root, and refuses when it is HEAD's.
  function CommitStaged(repo: Repo, author: Author): Repo {
    if repo.staged == repo.head then repo
    else repo.(head := repo.staged, log := repo.log + [Commit(author, repo.staged, repo.head)])
  }

  predicate GraphClean(repo: Repo) {
    repo.staged.graph == repo.head.graph && repo.working.graph == repo.staged.graph
  }

  // The pre-flight: nothing unstaged in quizdom's tables, and anything staged there is
  // exactly what the marker recorded.
  predicate BeginAccepts(repo: Repo) {
    && repo.working.graph == repo.staged.graph
    && (repo.staged.graph == repo.head.graph || repo.marker == Some(repo.staged))
  }

  // `dolt add` of any choice of tables.
  function AddTables(repo: Repo, nodes: bool, edges: bool, others: set<string>): Repo {
    var st, wk := repo.staged, repo.working;
    var graph := Graph(if nodes then wk.graph.nodes else st.graph.nodes,
                       if edges then wk.graph.edges else st.graph.edges);
    var other := (map n | n in st.other && n !in others :: st.other[n])
               + (map n | n in wk.other && n in others :: wk.other[n]);
    repo.(staged := Root(graph, other))
  }

  // Where a quizdom run stands between two of its steps.
  datatype Phase = Idle | Ready | Applied | Staged | Committed

  // `seen` is the repository as the current run's pre-flight saw it.
  datatype State = State(repo: Repo, phase: Phase, seen: Repo)

  datatype Event =
    | Begin
    | Apply(s: Statement)
    | Stage
    | Record(r: Recording)
    | CommitRun
    | CommitFails
    | Clear
    | Crash
    | UserEdit(working: Root)
    | UserAdd(nodes: bool, edges: bool, others: set<string>)
    | UserReset
    | UserCommit
    | UserSnapshot

  // Steps of a run follow each other; the user acts between runs, not inside one.
  predicate Enabled(s: State, e: Event) {
    match e
    case Begin => s.phase == Idle
    case Apply(_) => s.phase == Ready || s.phase == Applied
    case Stage => s.phase == Ready || s.phase == Applied
    case Record(_) => s.phase == Staged
    case CommitRun => s.phase == Ready
    case CommitFails => s.phase == Ready
    case Clear => s.phase == Committed
    case Crash => s.phase != Idle
    case _ => s.phase == Idle
  }

  function Next(s: State, e: Event): State {
    var repo := s.repo;
    match e
    case Begin => if BeginAccepts(repo) then State(repo, Ready, repo) else s
    case Apply(stmt) =>
      (match Exec(repo.working.graph, stmt)
       case Some(g) => s.(repo := repo.(working := repo.working.(graph := g)), phase := Applied)
       case None => s.(phase := Idle))
    case Stage => s.(repo := StageGraph(repo), phase := Staged)
    case Record(r) => s.(repo := repo.(marker := Marked(repo.marker, repo.staged, r)), phase := Ready)
    case CommitRun => s.(repo := CommitStaged(repo, Quizdom), phase := Committed)
    case CommitFails => s.(phase := if GraphClean(repo) then Committed else Idle)
    case Clear => s.(repo := repo.(marker := None), phase := Idle)
    case Crash => s.(phase := Idle)
    case UserEdit(w) => s.(repo := repo.(working := w))
    case UserAdd(nodes, edges, others) => s.(repo := AddTables(repo, nodes, edges, others))
    case UserReset => s.(repo := repo.(staged := repo.head, working := repo.head))
    case UserCommit => s.(repo := CommitStaged(repo, Hand))
    case UserSnapshot => s.(repo := CommitStaged(repo.(staged := repo.working), Snapshot))
  }

  function Run(s0: State, events: seq<Event>): State {
    if events == [] then s0
    else Next(Run(s0, events[..|events| - 1]), events[|events| - 1])
  }

  predicate Possible(s0: State, events: seq<Event>) {
    events == [] ||
    (Possible(s0, events[..|events| - 1]) && Enabled(Run(s0, events[..|events| - 1]), events[|events| - 1]))
  }

  // A repository no quizdom run has touched: any contents, and any user history.
  predicate Untouched(s: State) {
    && s.phase == Idle
    && s.repo.marker == None
    && forall c :: c in s.repo.log ==> c.author != Quizdom
  }

  // ---- Provenance ----

  // The statements quizdom runs executed, in order.
  function Issued(events: seq<Event>): seq<Statement> {
    if events == [] then []
    else
      var rest := Issued(events[..|events| - 1]);
      var last := events[|events| - 1];
      if last.Apply? then rest + [last.s] else rest
  }

  // Where the last pre-flight stands.
  function Opening(events: seq<Event>): (b: nat)
    ensures b < |events| || b == 0
  {
    if events == [] then 0
    else if events[|events| - 1] == Begin then |events| - 1
    else Opening(events[..|events| - 1])
  }

  // The statements of the current run, and the repository its pre-flight saw.
  function OfRun(events: seq<Event>): seq<Statement> { Issued(events[Opening(events)..]) }

  function Seen(s0: State, events: seq<Event>): Repo { Run(s0, events[..Opening(events)]).repo }

  // The current run has made `g`: its own statements, all of them and in order, applied to what
  // its own pre-flight saw staged. That was HEAD's rows, or a root an earlier run left.
  ghost predicate RunMade(g: Graph, s0: State, events: seq<Event>)
    decreases |events|, 0
  {
    var b := Opening(events);
    && b < |events| && events[b] == Begin
    && BeginAccepts(Seen(s0, events))
    && ExecAll(Seen(s0, events).staged.graph, OfRun(events)) == Some(g)
    && (Seen(s0, events).staged.graph == Seen(s0, events).head.graph || Left(Seen(s0, events).staged, s0, events[..b]))
  }

  // Some staging write of a run made exactly this root, and recorded it.
  ghost predicate Left(root: Root, s0: State, events: seq<Event>)
    decreases |events|, 2
  {
    exists e :: 0 < e <= |events| && LeftAt(root, s0, events, e)
  }

  ghost predicate LeftAt(root: Root, s0: State, events: seq<Event>, e: nat)
    requires 0 < e <= |events|
    decreases |events|, 1
  {
    && events[e - 1] == Record(Written)
    && Run(s0, events[..e]).repo.staged == root
    && RunMade(root.graph, s0, events[..e])
  }

  lemma RunAppend(s0: State, events: seq<Event>, e: Event)
    ensures Run(s0, events + [e]) == Next(Run(s0, events), e)
  {
    assert (events + [e])[..|events|] == events;
  }

  lemma IssuedAppend(events: seq<Event>, e: Event)
    ensures Issued(events + [e]) == Issued(events) + if e.Apply? then [e.s] else []
  {
    assert (events + [e])[..|events|] == events;
  }

  // A step that opens no run leaves the current run's opening where it was.
  lemma SameRun(s0: State, events: seq<Event>, e: Event)
    requires e != Begin
    ensures Opening(events + [e]) == Opening(events) && Seen(s0, events + [e]) == Seen(s0, events)
    ensures OfRun(events + [e]) == OfRun(events) + if e.Apply? then [e.s] else []
  {
    var b := Opening(events);
    assert (events + [e])[..|events|] == events;
    assert (events + [e])[..b] == events[..b];
    assert (events + [e])[b..] == events[b..] + [e];
    IssuedAppend(events[b..], e);
  }

  lemma LeftLater(root: Root, s0: State, events: seq<Event>, e: Event)
    requires Left(root, s0, events)
    ensures Left(root, s0, events + [e])
  {
    var k :| 0 < k <= |events| && LeftAt(root, s0, events, k);
    assert (events + [e])[..k] == events[..k];
    assert LeftAt(root, s0, events + [e], k);
  }

  lemma RunGoesOn(g: Graph, s0: State, events: seq<Event>, e: Event)
    requires RunMade(g, s0, events) && e != Begin && !e.Apply?
    ensures RunMade(g, s0, events + [e])
  {
    SameRun(s0, events, e);
    assert OfRun(events + [e]) == OfRun(events);
    assert (events + [e])[..Opening(events)] == events[..Opening(events)];
  }

  lemma RunApplies(g: Graph, s0: State, events: seq<Event>, s: Statement)
    requires RunMade(g, s0, events) && Exec(g, s).Some?
    ensures RunMade(Exec(g, s).value, s0, events + [Apply(s)])
  {
    SameRun(s0, events, Apply(s));
    assert (events + [Apply(s)])[..Opening(events)] == events[..Opening(events)];
    ExecAllAppend(Seen(s0, events).staged.graph, OfRun(events), s);
  }

  lemma RunOpens(s0: State, events: seq<Event>)
    requires BeginAccepts(Run(s0, events).repo)
    requires var repo := Run(s0, events).repo; repo.marker.Some? ==> Left(repo.marker.value, s0, events)
    ensures Opening(events + [Begin]) == |events| && Seen(s0, events + [Begin]) == Run(s0, events).repo
    ensures RunMade(Run(s0, events).repo.working.graph, s0, events + [Begin])
  {
    var more := events + [Begin];
    assert more[..|events|] == events && more[|events|..] == [Begin];
    assert Issued([Begin]) == [];
  }

  // What holds of the run in hand.
  ghost predicate InRun(s0: State, events: seq<Event>) {
    var s := Run(s0, events);
    && s.seen == Seen(s0, events)
    && RunMade(s.repo.working.graph, s0, events)
    && s.repo.head == s.seen.head && s.repo.staged.other == s.seen.staged.other
    && (s.phase != Applied ==> s.repo.working.graph == s.repo.staged.graph)
  }

  predicate Inside(s: State) { s.phase == Ready || s.phase == Applied || s.phase == Staged }

  // What holds at every step of every run.
  ghost predicate Inv(s0: State, events: seq<Event>) {
    var s := Run(s0, events);
    && (s.repo.marker.Some? ==> Left(s.repo.marker.value, s0, events))
    && (Inside(s) ==> InRun(s0, events))
  }

  lemma RunStep(s0: State, events: seq<Event>, e: Event)
    requires Inv(s0, events) && Enabled(Run(s0, events), e)
    requires Inside(Next(Run(s0, events), e))
    ensures InRun(s0, events + [e])
  {
    var s := Run(s0, events);
    RunAppend(s0, events, e);
    if e == Begin {
      RunOpens(s0, events);
    } else {
      SameRun(s0, events, e);
      if e.Apply? { RunApplies(s.repo.working.graph, s0, events, e.s); }
      else { RunGoesOn(s.repo.working.graph, s0, events, e); }
    }
  }

  lemma InvStep(s0: State, events: seq<Event>, e: Event)
    requires Inv(s0, events) && Enabled(Run(s0, events), e)
    ensures Inv(s0, events + [e])
  {
    var s, t := Run(s0, events), Next(Run(s0, events), e);
    var more := events + [e];
    RunAppend(s0, events, e);
    if Inside(t) { RunStep(s0, events, e); }
    if t.repo.marker.Some? {
      if e == Record(Written) {
        assert more[..|more|] == more;
        assert LeftAt(t.repo.staged, s0, more, |more|);
      } else {
        LeftLater(t.repo.marker.value, s0, events, e);
      }
    }
  }

  lemma {:induction false} InvHolds(s0: State, events: seq<Event>)
    requires Untouched(s0) && Possible(s0, events)
    ensures Inv(s0, events)
    decreases |events|
  {
    if events != [] {
      var rest, e := events[..|events| - 1], events[|events| - 1];
      InvHolds(s0, rest);
      InvStep(s0, rest, e);
      assert rest + [e] == events;
    }
  }

  // The commit event at `c` made the `i`th commit of the log: on the HEAD its own pre-flight
  // saw, with what was staged then and, on top of it, the statements of its own run.
  ghost predicate CommittedAt(c: nat, i: nat, commit: Commit, s0: State, events: seq<Event>) {
    && c < |events| && events[c] == CommitRun
    && Run(s0, events[..c]).phase == Ready
    && |Run(s0, events[..c]).repo.log| == i
    && Run(s0, events[..c + 1]).repo.log == Run(s0, events[..c]).repo.log + [commit]
    && commit.parent == Seen(s0, events[..c]).head
    && commit.root.other == Seen(s0, events[..c]).staged.other
    && RunMade(commit.root.graph, s0, events[..c])
  }

  lemma CommittedLater(c: nat, i: nat, commit: Commit, s0: State, events: seq<Event>, e: Event)
    requires CommittedAt(c, i, commit, s0, events)
    ensures CommittedAt(c, i, commit, s0, events + [e])
  {
    assert (events + [e])[..c] == events[..c] && (events + [e])[..c + 1] == events[..c + 1];
  }

  lemma JustCommitted(s0: State, events: seq<Event>)
    requires Inv(s0, events) && Run(s0, events).phase == Ready
    requires Run(s0, events).repo.staged != Run(s0, events).repo.head
    ensures
      var s := Run(s0, events);
      CommittedAt(|events|, |s.repo.log|, Commit(Quizdom, s.repo.staged, s.repo.head), s0, events + [CommitRun])
  {
    var more := events + [CommitRun];
    assert more[..|events|] == events && more[..|events| + 1] == more;
    RunAppend(s0, events, CommitRun);
  }

  // A step adds at most one commit, and only a run's commit step adds one in quizdom's name.
  lemma LogGrows(s: State, e: Event)
    requires Enabled(s, e)
    ensures
      var log, more := s.repo.log, Next(s, e).repo.log;
      && (more == log || (|more| == |log| + 1 && more[..|log|] == log))
      && (more != log && more[|log|].author == Quizdom ==>
            && e == CommitRun && s.repo.staged != s.repo.head
            && more[|log|] == Commit(Quizdom, s.repo.staged, s.repo.head))
  {
  }

  // The guarantee of the seam: whatever the user and the crashes do between runs, every commit
  // under quizdom's name was made by a run, on the HEAD that run's own pre-flight saw, and its
  // rows are that run's own statements applied to HEAD's rows, or to rows an earlier run staged
  // and recorded and which themselves came about in this way.
  lemma {:induction false} Provenance(s0: State, events: seq<Event>, i: nat)
    requires Untouched(s0) && Possible(s0, events)
    requires i < |Run(s0, events).repo.log| && Run(s0, events).repo.log[i].author == Quizdom
    ensures exists c :: CommittedAt(c, i, Run(s0, events).repo.log[i], s0, events)
    decreases |events|
  {
    if events == [] {
      assert false;
    } else {
      var rest, e := events[..|events| - 1], events[|events| - 1];
      assert rest + [e] == events;
      RunAppend(s0, rest, e);
      var log := Run(s0, rest).repo.log;
      LogGrows(Run(s0, rest), e);
      if i < |log| {
        Provenance(s0, rest, i);
        var c :| CommittedAt(c, i, log[i], s0, rest);
        CommittedLater(c, i, log[i], s0, rest, e);
      } else {
        InvHolds(s0, rest);
        JustCommitted(s0, rest);
      }
    }
  }

  // The marker vouches for content, not for who typed it or when. The concrete case: a run dies
  // with `b` recorded, the user throws it away and commits `c`, then types `b` again and stages
  // it. The next run takes it up, and its commit, with no statement of its own, undoes the
  // user's.
  lemma RecordedContentIsTakenUp(a: Graph, b: Graph, c: Graph, st: Statement)
    requires Exec(a, st) == Some(b) && a != b && c != a && c != b
    ensures
      var ra, rb, rc := Root(a, map[]), Root(b, map[]), Root(c, map[]);
      var s0 := State(Repo(ra, ra, ra, None, []), Idle, Repo(ra, ra, ra, None, []));
      var events := [Begin, Apply(st), Stage, Record(Written), Crash]
                  + [UserReset, UserEdit(rc), UserAdd(true, true, {}), UserCommit]
                  + [UserEdit(rb), UserAdd(true, true, {}), Begin, CommitRun];
      && Untouched(s0) && Possible(s0, events)
      && Run(s0, events).repo.log == [Commit(Hand, rc, ra), Commit(Quizdom, rb, rc)]
      && OfRun(events[..|events| - 1]) == []
  {
    var ra, rb, rc := Root(a, map[]), Root(b, map[]), Root(c, map[]);
    var s0 := State(Repo(ra, ra, ra, None, []), Idle, Repo(ra, ra, ra, None, []));
    var s1 := State(Repo(ra, rb, rb, Some(rb), []), Idle, s0.repo);
    var one := [Begin, Apply(st), Stage, Record(Written), Crash];
    FiveSteps(s0, s0.repo, ra, rb, st);
    var two := [UserReset, UserEdit(rc), UserAdd(true, true, {}), UserCommit];
    var s2 := State(Repo(rc, rc, rc, Some(rb), [Commit(Hand, rc, ra)]), Idle, s0.repo);
    HandSteps(s1, ra, rb, rc);
    RunConcat(s0, one, two);
    var three := [UserEdit(rb), UserAdd(true, true, {}), Begin, CommitRun];
    TakenUpSteps(s2, ra, rb, rc);
    RunConcat(s0, one + two, three);
    OpensEmpty(one + two + three, one + two + three[..2]);
  }

  lemma OpensEmpty(events: seq<Event>, before: seq<Event>)
    requires |events| == |before| + 2 && events[..|before|] == before && events[|before|] == Begin
    ensures OfRun(events[..|events| - 1]) == []
  {
    var now := events[..|events| - 1];
    assert now[|now| - 1] == Begin && now[|before|..] == [Begin];
    assert Issued([Begin]) == [];
  }

  lemma FiveSteps(s0: State, seen: Repo, ra: Root, rb: Root, st: Statement)
    requires s0 == State(Repo(ra, ra, ra, None, []), Idle, seen)
    requires ra.other == rb.other == map[] && Exec(ra.graph, st) == Some(rb.graph)
    ensures
      var events := [Begin, Apply(st), Stage, Record(Written), Crash];
      Possible(s0, events) && Run(s0, events) == State(Repo(ra, rb, rb, Some(rb), []), Idle, s0.repo)
  {
    var s1 := State(s0.repo, Ready, s0.repo);
    TwoMore(s0, [], Begin, s1, Apply(st));
    assert [] + [Begin, Apply(st)] == [Begin, Apply(st)];
    var s3 := State(Repo(ra, rb, rb, None, []), Staged, s0.repo);
    TwoMore(s0, [Begin, Apply(st)], Stage, s3, Record(Written));
    assert [Begin, Apply(st)] + [Stage, Record(Written)] == [Begin, Apply(st), Stage, Record(Written)];
    PossibleAppend(s0, [Begin, Apply(st), Stage, Record(Written)], Crash);
    assert [Begin, Apply(st), Stage, Record(Written)] + [Crash] == [Begin, Apply(st), Stage, Record(Written), Crash];
  }

  lemma HandSteps(s1: State, ra: Root, rb: Root, rc: Root)
    requires s1.phase == Idle && s1.repo == Repo(ra, rb, rb, Some(rb), [])
    requires ra.other == rb.other == rc.other == map[] && rc != ra
    ensures
      var events := [UserReset, UserEdit(rc), UserAdd(true, true, {}), UserCommit];
      && Possible(s1, events)
      && Run(s1, events) == s1.(repo := Repo(rc, rc, rc, Some(rb), [Commit(Hand, rc, ra)]))
  {
    var t := s1.(repo := Repo(ra, ra, ra, Some(rb), []));
    TwoMore(s1, [], UserReset, t, UserEdit(rc));
    assert [] + [UserReset, UserEdit(rc)] == [UserReset, UserEdit(rc)];
    var add := UserAdd(true, true, {});
    var u := s1.(repo := Repo(ra, rc, rc, Some(rb), []));
    AddsAll(Repo(ra, ra, rc, Some(rb), []));
    TwoMore(s1, [UserReset, UserEdit(rc)], add, u, UserCommit);
    assert [UserReset, UserEdit(rc)] + [add, UserCommit] == [UserReset, UserEdit(rc), add, UserCommit];
  }

  lemma TakenUpSteps(s2: State, ra: Root, rb: Root, rc: Root)
    requires s2.phase == Idle && s2.repo == Repo(rc, rc, rc, Some(rb), [Commit(Hand, rc, ra)])
    requires rb.other == rc.other == map[] && rb != rc
    ensures
      var events := [UserEdit(rb), UserAdd(true, true, {}), Begin, CommitRun];
      && Possible(s2, events)
      && Run(s2, events).repo.log == [Commit(Hand, rc, ra), Commit(Quizdom, rb, rc)]
  {
    var add := UserAdd(true, true, {});
    var t := s2.(repo := s2.repo.(working := rb));
    TwoMore(s2, [], UserEdit(rb), t, add);
    assert [] + [UserEdit(rb), add] == [UserEdit(rb), add];
    AddsAll(t.repo);
    var u := t.repo.(staged := rb);
    TwoMore(s2, [UserEdit(rb), add], Begin, State(u, Ready, u), CommitRun);
    assert [UserEdit(rb), add] + [Begin, CommitRun] == [UserEdit(rb), add, Begin, CommitRun];
  }

  lemma AddsAll(repo: Repo)
    requires repo.staged.other == map[] && repo.working.other == map[]
    ensures AddTables(repo, true, true, {}) == repo.(staged := repo.working)
  {
    assert AddTables(repo, true, true, {}).staged.other == map[];
  }

  // Running one list of steps after another.
  lemma {:induction false} RunConcat(s0: State, a: seq<Event>, b: seq<Event>)
    ensures Run(s0, a + b) == Run(Run(s0, a), b)
    ensures Possible(s0, a + b) <==> Possible(s0, a) && Possible(Run(s0, a), b)
    decreases |b|
  {
    if b == [] {
      assert a + b == a;
    } else {
      RunConcat(s0, a, b[..|b| - 1]);
      assert (a + b)[..|a + b| - 1] == a + b[..|b| - 1];
    }
  }

  lemma PossiblePrefix(s0: State, events: seq<Event>, e: Event)
    requires Possible(s0, events + [e])
    ensures Possible(s0, events) && Enabled(Run(s0, events), e)
  {
    assert (events + [e])[..|events|] == events;
  }

  // Tables other than quizdom's: the commit a run makes carries exactly what was staged for
  // them at its pre-flight. So it carries a change to another table if and only if one was
  // already staged there, which the pre-flight does not look at.
  lemma OtherTables(s0: State, events: seq<Event>)
    requires Untouched(s0) && Possible(s0, events + [CommitRun])
    ensures
      var before, after := Run(s0, events), Run(s0, events + [CommitRun]);
      && after.repo.head.other == before.seen.staged.other
      && before.repo.head == before.seen.head
      && (after.repo.head.other != before.repo.head.other <==>
            before.seen.staged.other != before.seen.head.other)
  {
    PossiblePrefix(s0, events, CommitRun);
    InvHolds(s0, events);
    RunAppend(s0, events, CommitRun);
  }

  // The concrete case: the user stages a table of their own, and the next quizdom commit has it.
  lemma StagedOtherTableIsCarried(g: Graph)
    ensures
      var r := Root(g, map[]);
      var s0 := State(Repo(r, r, r, None, []), Idle, Repo(r, r, r, None, []));
      var mine := Root(g, map["mine" := "rows"]);
      var events := [UserEdit(mine), UserAdd(false, false, {"mine"}), Begin, CommitRun];
      && Untouched(s0) && Possible(s0, events)
      && Run(s0, events).repo.log == [Commit(Quizdom, mine, r)]
  {
    var r := Root(g, map[]);
    var s0 := State(Repo(r, r, r, None, []), Idle, Repo(r, r, r, None, []));
    var mine := Root(g, map["mine" := "rows"]);
    var e1, e2 := UserEdit(mine), UserAdd(false, false, {"mine"});
    var s1 := State(Repo(r, r, mine, None, []), Idle, s0.seen);
    var s2 := State(Repo(r, mine, mine, None, []), Idle, s0.seen);
    var s3 := State(s2.repo, Ready, s2.repo);
    assert AddTables(s1.repo, false, false, {"mine"}).staged.other == mine.other;
    assert "mine" in mine.other && mine != r;
    TwoMore(s0, [], e1, s1, e2);
    assert [] + [e1, e2] == [e1, e2];
    TwoMore(s0, [e1, e2], Begin, s3, CommitRun);
    assert [e1, e2] + [Begin, CommitRun] == [e1, e2, Begin, CommitRun];
  }

  lemma TwoMore(s0: State, events: seq<Event>, a: Event, s: State, b: Event)
    requires Possible(s0, events) && Enabled(Run(s0, events), a) && Next(Run(s0, events), a) == s && Enabled(s, b)
    ensures Possible(s0, events + [a, b]) && Run(s0, events + [a, b]) == Next(s, b)
  {
    PossibleAppend(s0, events, a);
    assert Possible(s0, events + [a]) && Run(s0, events + [a]) == s;
    PossibleAppend(s0, events + [a], b);
    assert events + [a] + [b] == events + [a, b];
  }

  lemma PossibleAppend(s0: State, events: seq<Event>, e: Event)
    ensures Run(s0, events + [e]) == Next(Run(s0, events), e)
    ensures Possible(s0, events) && Enabled(Run(s0, events), e) ==> Possible(s0, events + [e])
  {
    assert (events + [e])[..|events|] == events;
  }

  // ---- Edits inside a run ----

  // Why the user must not act inside a run: an edit made between a pre-flight and that run's
  // staging write is committed under quizdom's name, though no statement accounts for it.
  lemma EditInsideARunIsCarried(g: Graph, edited: Graph)
    requires g != edited
    ensures
      var r := Root(g, map[]);
      var s0 := State(Repo(r, r, r, None, []), Idle, Repo(r, r, r, None, []));
      var events := [Begin, UserEdit(Root(edited, map[])), Stage, Record(Written), CommitRun];
      && Run(s0, events).repo.log == [Commit(Quizdom, Root(edited, map[]), r)]
      && forall c :: !CommittedAt(c, 0, Commit(Quizdom, Root(edited, map[]), r), s0, events)
  {
    var r := Root(g, map[]);
    var s0 := State(Repo(r, r, r, None, []), Idle, Repo(r, r, r, None, []));
    var e2 := UserEdit(Root(edited, map[]));
    var events := [Begin, e2, Stage, Record(Written), CommitRun];
    assert [Begin] == [] + [Begin] && [Begin, e2] == [Begin] + [e2];
    assert [Begin, e2, Stage] == [Begin, e2] + [Stage];
    assert [Begin, e2, Stage, Record(Written)] == [Begin, e2, Stage] + [Record(Written)];
    assert events == [Begin, e2, Stage, Record(Written)] + [CommitRun];
    RunAppend(s0, [], Begin);
    RunAppend(s0, [Begin], e2);
    RunAppend(s0, [Begin, e2], Stage);
    RunAppend(s0, [Begin, e2, Stage], Record(Written));
    RunAppend(s0, [Begin, e2, Stage, Record(Written)], CommitRun);
    forall c ensures !CommittedAt(c, 0, Commit(Quizdom, Root(edited, map[]), r), s0, events) {
      if c == 4 {
        var before := events[..4];
        assert before == [Begin, e2, Stage, Record(Written)];
        SameRun(s0, [Begin], e2);
        SameRun(s0, [Begin, e2], Stage);
        SameRun(s0, [Begin, e2, Stage], Record(Written));
        assert Opening([Begin]) == 0 && [Begin][0..] == [Begin] && [Begin][..0] == [];
        NothingIssued(before);
        assert before[0..] == before;
      }
    }
  }

  lemma {:induction false} NothingIssued(events: seq<Event>)
    requires forall e :: e in events ==> !e.Apply?
    ensures Issued(events) == []
    decreases |events|
  {
    if events != [] { NothingIssued(events[..|events| - 1]); }
  }

  // The steps a run takes between its pre-flight and its commit.
  predicate RunSteps(events: seq<Event>) {
    forall e :: e in events ==> e.Apply? || e == Stage || e.Record?
  }

  // How much of a run lies before the end of its last staging: nothing, if it stages no more.
  function ToStage(events: seq<Event>): (k: nat)
    ensures k <= |events|
  {
    if events == [] then 0
    else if events[|events| - 1] == Stage then |events|
    else ToStage(events[..|events| - 1])
  }

  // What the rest of a run makes of a repository, statement by statement.
  lemma {:induction false} RestOfRun(s: State, rest: seq<Event>)
    requires RunSteps(rest) && ExecAll(s.repo.working.graph, Issued(rest)).Some?
    ensures Run(s, rest).repo.working == s.repo.working.(graph := ExecAll(s.repo.working.graph, Issued(rest)).value)
    ensures ExecAll(s.repo.working.graph, Issued(rest[..ToStage(rest)])).Some?
    ensures Run(s, rest).repo.staged ==
              if ToStage(rest) == 0 then s.repo.staged
              else s.repo.staged.(graph := ExecAll(s.repo.working.graph, Issued(rest[..ToStage(rest)])).value)
    decreases |rest|
  {
    if rest != [] {
      var less, e := rest[..|rest| - 1], rest[|rest| - 1];
      assert rest == less + [e];
      IssuedAppend(less, e);
      RunAppend(s, less, e);
      if e.Apply? { ExecAllAppend(s.repo.working.graph, Issued(less), e.s); }
      RestOfRun(s, less);
      assert rest[..|rest|] == rest;
      if e != Stage { assert rest[..ToStage(less)] == less[..ToStage(less)]; }
    }
  }

  // Which edits inside a run do harm. An edit that leaves `w` in the working set, with `rest` of
  // the run still to come, changes what the run commits if and only if the run still has a
  // staging write to make, and its statements up to there come out differently on `w`. After the
  // last staging write an edit is never swept in. (On a `w` the statements fail on, the run ends
  // without a commit.)
  lemma EditsInsideARun(s: State, w: Root, rest: seq<Event>)
    requires RunSteps(rest)
    requires ExecAll(s.repo.working.graph, Issued(rest)).Some? && ExecAll(w.graph, Issued(rest)).Some?
    ensures
      var edited := Run(Next(s, UserEdit(w)), rest + [CommitRun]).repo.head;
      var plain := Run(s, rest + [CommitRun]).repo.head;
      var before := Issued(rest[..ToStage(rest)]);
      && (ToStage(rest) > 0 ==> Some(edited.graph) == ExecAll(w.graph, before))
      && (edited != plain <==>
            ToStage(rest) > 0 && ExecAll(w.graph, before) != ExecAll(s.repo.working.graph, before))
  {
    RestOfRun(s, rest);
    RestOfRun(Next(s, UserEdit(w)), rest);
    RunAppend(s, rest, CommitRun);
    RunAppend(Next(s, UserEdit(w)), rest, CommitRun);
  }

  // ---- One whole run ----

  // The repository after one self-staging batch, if every statement of it succeeds.
  function AfterBatch(repo: Repo, batch: seq<Statement>, r: Recording): Option<Repo> {
    match ExecAll(repo.working.graph, batch)
    case None => None
    case Some(g) =>
      var staged := repo.staged.(graph := g);
      Some(repo.(working := repo.working.(graph := g), staged := staged,
                 marker := Marked(repo.marker, staged, r)))
  }

  function Applies(batch: seq<Statement>): (r: seq<Event>)
    ensures |r| == |batch|
  {
    if batch == [] then [] else Applies(batch[..|batch| - 1]) + [Apply(batch[|batch| - 1])]
  }

  lemma {:induction false} AppliesRun(s: State, batch: seq<Statement>)
    requires s.phase == Ready && ExecAll(s.repo.working.graph, batch).Some?
    ensures
      var t := Run(s, Applies(batch));
      && t == s.(repo := s.repo.(working := s.repo.working.(graph := ExecAll(s.repo.working.graph, batch).value)),
                 phase := if batch == [] then Ready else Applied)
    decreases |batch|
  {
    if batch != [] {
      var rest, last := batch[..|batch| - 1], batch[|batch| - 1];
      AppliesRun(s, rest);
      RunAppend(s, Applies(rest), Apply(last));
    }
  }

  // The batch is the machine's steps: each statement, then the staging, then the record.
  lemma BatchIsSteps(s: State, batch: seq<Statement>, r: Recording)
    requires s.phase == Ready && AfterBatch(s.repo, batch, r).Some?
    ensures Run(s, Applies(batch) + [Stage] + [Record(r)])
         == State(AfterBatch(s.repo, batch, r).value, Ready, s.seen)
  {
    AppliesRun(s, batch);
    RunAppend(s, Applies(batch), Stage);
    RunAppend(s, Applies(batch) + [Stage], Record(r));
  }

  // ---- Resuming ----

  // Killed or failing with its last batch recorded and nothing since: the next pre-flight
  // accepts, whatever the earlier history, and a run that only commits completes the work: its
  // commit carries exactly the rows that were staged, which a run made and recorded.
  lemma RecordedRunIsResumed(s0: State, events: seq<Event>, last: Event)
    requires Untouched(s0) && last in {Crash, CommitFails}
    requires Possible(s0, events + [Record(Written)])
    ensures
      var s := Run(s0, events + [Record(Written)]);
      var stopped := Next(s, last);
      var resumed := Next(stopped, Begin);
      var done := Next(resumed, CommitRun).repo;
      && Enabled(s, last) && BeginAccepts(stopped.repo)
      && (stopped.phase == Idle ==>
            && resumed.phase == Ready && done.head == s.repo.staged
            && (s.repo.staged != s.repo.head ==> done.log == s.repo.log + [Commit(Quizdom, s.repo.staged, s.repo.head)]))
      && Left(s.repo.staged, s0, events + [Record(Written)])
  {
    PossiblePrefix(s0, events, Record(Written));
    InvHolds(s0, events + [Record(Written)]);
    RunAppend(s0, events, Record(Written));
  }

  // Killed between a batch's staging write and its record: accepted only if the rows are HEAD's
  // again or the very root an earlier batch recorded; so, after recorded batches, refused
  // exactly when the batch changed a row, unless it undid the whole run.
  lemma UnrecordedBatchIsRefused(s: State, batch: seq<Statement>)
    requires s.phase == Ready && ExecAll(s.repo.working.graph, batch).Some?
    ensures
      var g := ExecAll(s.repo.working.graph, batch).value;
      var killed := Next(Run(s, Applies(batch) + [Stage]), Crash).repo;
      && (BeginAccepts(killed) <==> g == s.repo.head.graph || s.repo.marker == Some(s.repo.staged.(graph := g)))
      && (s.repo.marker == Some(s.repo.staged) ==>
            (BeginAccepts(killed) <==> g == s.repo.head.graph || g == s.repo.staged.graph))
  {
    AppliesRun(s, batch);
    RunAppend(s, Applies(batch), Stage);
  }

  // Killed inside a batch, before it stages, or stopped there by a statement that fails: refused
  // exactly when what ran of that batch changed a row.
  lemma HalfBatchIsRefused(s: State, part: seq<Statement>, failing: Statement)
    requires s.phase == Ready && BeginAccepts(s.repo) && ExecAll(s.repo.working.graph, part).Some?
    ensures
      var g := ExecAll(s.repo.working.graph, part).value;
      var half := Run(s, Applies(part));
      && (BeginAccepts(Next(half, Crash).repo) <==> g == s.repo.staged.graph)
      && (Exec(g, failing) == None ==> Next(half, Apply(failing)) == Next(half, Crash))
  {
    AppliesRun(s, part);
  }
}
