/** Whole quizdom commands as steps of the write seam, so that what is proved of every run of the
    machine is proved of every history of commands, user steps and crashes. */
module Commands {
  import opened Wrappers
  import opened Tables
  import opened WriteSeam

  // From a repository at rest over `before`, these steps are possible and lead to a run in hand
  // over `now`, whatever run came before.
  predicate LeadsTo(s: State, events: seq<Event>, t: State) { Possible(s, events) && Run(s, events) == t }

  ghost predicate Claimed(before: Repo, events: seq<Event>, now: Repo) {
    forall seen: Repo :: LeadsTo(State(before, Idle, seen), events, State(now, Ready, before))
  }

  // These steps are possible, and leave the repository at rest over `after`.
  ghost predicate Does(before: Repo, events: seq<Event>, after: Repo) {
    forall seen: Repo :: DoesAfter(before, seen, events, after)
  }

  ghost predicate DoesAfter(before: Repo, seen: Repo, events: seq<Event>, after: Repo) {
    exists last: Repo :: LeadsTo(State(before, Idle, seen), events, State(after, Idle, last))
  }

  lemma DoesNothing(repo: Repo)
    ensures Does(repo, [], repo)
  {
    forall seen: Repo ensures DoesAfter(repo, seen, [], repo) {
      assert LeadsTo(State(repo, Idle, seen), [], State(repo, Idle, seen));
    }
  }

  lemma Claims(repo: Repo)
    requires BeginAccepts(repo)
    ensures Claimed(repo, [Begin], repo)
  {
    forall seen: Repo ensures LeadsTo(State(repo, Idle, seen), [Begin], State(repo, Ready, repo)) {
      PossibleAppend(State(repo, Idle, seen), [], Begin);
      assert [] + [Begin] == [Begin];
    }
  }

  // A claimed run goes on: more steps from where it stands.
  lemma ClaimGoesOn(before: Repo, events: seq<Event>, now: Repo, more: seq<Event>, later: Repo)
    requires Claimed(before, events, now)
    requires LeadsTo(State(now, Ready, before), more, State(later, Ready, before))
    ensures Claimed(before, events + more, later)
  {
    forall seen: Repo
      ensures LeadsTo(State(before, Idle, seen), events + more, State(later, Ready, before))
    {
      assert LeadsTo(State(before, Idle, seen), events, State(now, Ready, before));
      RunConcat(State(before, Idle, seen), events, more);
    }
  }

  lemma ClaimEnds(before: Repo, events: seq<Event>, now: Repo, more: seq<Event>, after: Repo)
    requires Claimed(before, events, now)
    requires LeadsTo(State(now, Ready, before), more, State(after, Idle, before))
    ensures Does(before, events + more, after)
  {
    forall seen: Repo ensures DoesAfter(before, seen, events + more, after) {
      assert LeadsTo(State(before, Idle, seen), events, State(now, Ready, before));
      RunConcat(State(before, Idle, seen), events, more);
      assert LeadsTo(State(before, Idle, seen), events + more, State(after, Idle, before));
    }
  }

  function BatchSteps(batch: seq<Statement>, r: Recording): seq<Event> { Applies(batch) + [Stage] + [Record(r)] }

  lemma {:induction false} AppliesPossible(s: State, batch: seq<Statement>)
    requires s.phase == Ready && ExecAll(s.repo.working.graph, batch).Some?
    ensures Possible(s, Applies(batch))
    decreases |batch|
  {
    if batch != [] {
      var rest, last := batch[..|batch| - 1], batch[|batch| - 1];
      AppliesPossible(s, rest);
      AppliesRun(s, rest);
      PossibleAppend(s, Applies(rest), Apply(last));
    }
  }

  lemma BatchLeads(s: State, batch: seq<Statement>, r: Recording)
    requires s.phase == Ready && AfterBatch(s.repo, batch, r).Some?
    ensures LeadsTo(s, BatchSteps(batch, r), State(AfterBatch(s.repo, batch, r).value, Ready, s.seen))
  {
    AppliesRun(s, batch);
    AppliesPossible(s, batch);
    PossibleAppend(s, Applies(batch), Stage);
    PossibleAppend(s, Applies(batch) + [Stage], Record(r));
    BatchIsSteps(s, batch, r);
  }

  // A run that ends where it stands, its rows left staged for the next.
  lemma StopLeads(s: State)
    requires s.phase == Ready
    ensures LeadsTo(s, [Crash], State(s.repo, Idle, s.seen))
  {
    PossibleAppend(s, [], Crash);
    assert [] + [Crash] == [Crash];
  }

  // The commit tail, in each of its outcomes. `made` says whether there was a commit to make.
  function CommitSteps(repo: Repo, made: bool): seq<Event> {
    if made then [CommitRun, Clear] else if GraphClean(repo) then [CommitFails, Clear] else [CommitFails]
  }

  function AfterCommit(repo: Repo, made: bool): Repo {
    if made then CommitStaged(repo, Quizdom).(marker := None)
    else if GraphClean(repo) then repo.(marker := None)
    else repo
  }

  lemma CommitLeads(s: State, made: bool)
    requires s.phase == Ready
    ensures LeadsTo(s, CommitSteps(s.repo, made), State(AfterCommit(s.repo, made), Idle, s.seen))
  {
    var first := if made then CommitRun else CommitFails;
    PossibleAppend(s, [], first);
    assert [] + [first] == [first];
    if made || GraphClean(s.repo) {
      PossibleAppend(s, [first], Clear);
      assert [first] + [Clear] == CommitSteps(s.repo, made);
    }
  }

  // A command run after any possible history is more of that history. So whatever holds of every
  // run of the machine holds over commands, user steps and crashes in any order.
  lemma CommandFollows(s0: State, events: seq<Event>, command: seq<Event>, after: Repo)
    requires Possible(s0, events) && Run(s0, events).phase == Idle
    requires Does(Run(s0, events).repo, command, after)
    ensures Possible(s0, events + command)
    ensures Run(s0, events + command).repo == after && Run(s0, events + command).phase == Idle
  {
    var s := Run(s0, events);
    assert DoesAfter(s.repo, s.seen, command, after);
    var last: Repo :| LeadsTo(State(s.repo, Idle, s.seen), command, State(after, Idle, last));
    RunConcat(s0, events, command);
  }

  // Every commit a command adds to the log under quizdom's name is accounted for.
  lemma CommandsCommitsAreAccounted(s0: State, events: seq<Event>, command: seq<Event>, after: Repo, i: nat)
    requires Untouched(s0) && Possible(s0, events) && Run(s0, events).phase == Idle
    requires Does(Run(s0, events).repo, command, after)
    requires i < |after.log| && after.log[i].author == Quizdom
    ensures exists c :: CommittedAt(c, i, after.log[i], s0, events + command)
  {
    CommandFollows(s0, events, command, after);
    Provenance(s0, events + command, i);
  }
}
