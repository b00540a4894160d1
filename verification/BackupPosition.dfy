/** The graph's own backup (db_backup.rs): snapshot, push, retirement of a foreign lineage, and
    the question a session ends on: is the graph backed up? */
module BackupPosition {
  import opened Wrappers
  import opened Text
  import WriteSeam
  import Mirror = UsersMirror

  // A commit is its whole history, oldest root first: an injective hash. Two histories share an
  // ancestor when they start from the same commit.
  type Root = WriteSeam.Root
  type History = seq<Root>

  // The repository, the remote-tracking ref, the directories that hold a history, and the other
  // paths there are: plain files, and directories that hold none.
  datatype State = State(working: Root, staged: Root, history: History, tracking: Option<History>,
                         dirs: map<string, History>, others: set<string>)

  // Every path there is.
  function Taken(s: State): set<string> { s.dirs.Keys + s.others }

  predicate Unrelated(a: History, b: History) { a == [] || b == [] || a[0] != b[0] }

  predicate Valid(s: State) { s.history != [] && forall d :: d in s.dirs ==> s.dirs[d] != [] }

  function Head(s: State): Root
    requires s.history != []
  {
    s.history[|s.history| - 1]
  }

  predicate Clean(s: State)
    requires s.history != []
  {
    s.staged == Head(s) && s.working == s.staged
  }

  // ---- The position, and what a session says about it ----

  datatype Position = UpToDate | Ahead | Unknown

  // The probe's one row: the branch, its tracking ref, and how much is pending, if readable.
  datatype Row = Row(local: Option<History>, backup: Option<History>, pending: Option<nat>)

  function PositionFromRow(row: Option<Row>): Position {
    match row
    case None => Unknown
    case Some(r) =>
      if r.local == None then Unknown
      else
        var pending := if r.pending.Some? then r.pending.value else 0;
        if pending > 0 || r.backup != r.local then Ahead else UpToDate
  }

  // What can be read of a row is true. Any of its fields may be unreadable.
  predicate Truthful(r: Row, s: State)
    requires s.history != []
  {
    && (r.local.Some? ==> r.local.value == s.history)
    && (r.backup.Some? ==> s.tracking == r.backup)
    && (r.pending.Some? ==> (r.pending.value == 0 <==> Clean(s)))
  }

  datatype Line = Reminder | BlindProbe | BackedUp | BackedUpBlindly | BackupFailed

  // `pushed`: how the push went, if one was made.
  function DurabilityFooter(position: Position, autoBackup: bool, pushed: bool): Option<Line> {
    match position
    case UpToDate => None
    case Unknown => Some(if !autoBackup then BlindProbe else if pushed then BackedUpBlindly else BackupFailed)
    case Ahead => Some(if !autoBackup then Reminder else if pushed then BackedUp else BackupFailed)
  }

  // The probe answered nothing, or not which commit the branch is at.
  predicate Blind(row: Option<Row>) { row == None || row.value.local == None }

  // It answered that something is not in the backup: pending changes, or another commit, or none.
  predicate Drifted(row: Option<Row>) {
    && row.Some? && row.value.local.Some?
    && (row.value.backup != row.value.local || (row.value.pending.Some? && row.value.pending.value > 0))
  }

  // Every line has one cause. Only a push that landed says so, a push that failed always does,
  // the reminder speaks only of drift that was read, and the blind lines of a blind probe.
  lemma FooterSays(row: Option<Row>, autoBackup: bool, pushed: bool)
    ensures
      var line := DurabilityFooter(PositionFromRow(row), autoBackup, pushed);
      && (line == None <==> !Blind(row) && !Drifted(row))
      && (line == Some(Reminder) <==> Drifted(row) && !autoBackup)
      && (line == Some(BlindProbe) <==> Blind(row) && !autoBackup)
      && (line == Some(BackedUp) <==> Drifted(row) && autoBackup && pushed)
      && (line == Some(BackedUpBlindly) <==> Blind(row) && autoBackup && pushed)
      && (line == Some(BackupFailed) <==> (Blind(row) || Drifted(row)) && autoBackup && !pushed)
  {
  }

  // ---- Retirement ----

  function Candidate(backup: string, suffix: nat): string {
    if suffix < 2 then backup + ".foreign-lineage" else backup + ".foreign-lineage." + Decimal(suffix)
  }

  lemma CandidatesDiffer(backup: string, i: nat, j: nat)
    requires 1 <= i < j
    ensures Candidate(backup, i) != Candidate(backup, j) && Candidate(backup, i) != backup
  {
    var base := backup + ".foreign-lineage";
    assert |base| > |backup|;
    if i >= 2 && Candidate(backup, i) == Candidate(backup, j) {
      var a, b := Candidate(backup, i), Candidate(backup, j);
      assert a[|base + "."|..] == Decimal(i) && b[|base + "."|..] == Decimal(j);
      DecimalInjective(i, j);
    }
  }

  lemma CandidateNames(backup: string)
    ensures Candidate(backup, 1) == backup + ".foreign-lineage"
    ensures Candidate(backup, 2) == backup + ".foreign-lineage.2" && Candidate(backup, 3) == backup + ".foreign-lineage.3"
  {
    assert Decimal(2) == "2" && Decimal(3) == "3";
    assert backup + ".foreign-lineage." + "2" == backup + ".foreign-lineage.2";
    assert backup + ".foreign-lineage." + "3" == backup + ".foreign-lineage.3";
  }

  // The first free name: the bare one, then `.2`, `.3` and so on.
  ghost predicate FirstFree(backup: string, taken: set<string>, suffix: nat) {
    suffix >= 1 && Candidate(backup, suffix) !in taken && forall k :: 1 <= k < suffix ==> Candidate(backup, k) in taken
  }

  ghost function Tried(backup: string, n: nat): set<string> { set k: nat | 1 <= k < n :: Candidate(backup, k) }

  lemma TriedMore(backup: string, n: nat)
    requires n >= 1
    ensures Candidate(backup, n) !in Tried(backup, n)
    ensures Tried(backup, n + 1) == Tried(backup, n) + {Candidate(backup, n)}
  {
    forall k: nat | 1 <= k < n ensures Candidate(backup, k) != Candidate(backup, n) {
      CandidatesDiffer(backup, k, n);
    }
  }

  lemma FewerLeft(all: set<string>, tried: set<string>, x: string)
    requires tried <= all && x in all && x !in tried
    ensures |all - (tried + {x})| < |all - tried|
  {
    assert all - tried == (all - (tried + {x})) + {x};
  }

  // The directory is moved, never deleted, and never over an earlier retirement.
  function Retired(backup: string, dirs: map<string, History>, suffix: nat): map<string, History>
    requires backup in dirs
  {
    dirs[Candidate(backup, suffix) := dirs[backup]] - {backup}
  }

  // Tries each name in turn until one is free.
  method FreeName(backup: string, taken: set<string>) returns (retired: string, ghost least: nat)
    ensures retired !in taken
    ensures FirstFree(backup, taken, least) && retired == Candidate(backup, least)
  {
    var suffix := 2;
    retired := Candidate(backup, 1);
    while retired in taken
      invariant suffix >= 2 && retired == Candidate(backup, suffix - 1)
      invariant Tried(backup, suffix - 1) <= taken
      decreases |taken - Tried(backup, suffix - 1)|
    {
      TriedMore(backup, suffix - 1);
      FewerLeft(taken, Tried(backup, suffix - 1), retired);
      retired := Candidate(backup, suffix);
      suffix := suffix + 1;
    }
    least := suffix - 1;
    assert forall k: nat :: 1 <= k < least ==> Candidate(backup, k) in Tried(backup, least);
  }

  // ---- Pushing ----

  // `commit_working_set`: everything pending becomes a commit; a clean tree makes none.
  function Snapshotted(s: State): State
    requires s.history != []
  {
    if s.working == Head(s) then s.(staged := s.working)
    else s.(staged := s.working, history := s.history + [s.working])
  }

  // The history a commit log stands for, over the root it starts from.
  function HistoryOf(base: Root, log: seq<WriteSeam.Commit>): (h: History)
    ensures |h| == |log| + 1
  {
    if log == [] then [base] else HistoryOf(base, log[..|log| - 1]) + [log[|log| - 1].root]
  }

  predicate SameRepository(s: State, base: Root, repo: WriteSeam.Repo) {
    && s.working == repo.working && s.staged == repo.staged
    && s.history == HistoryOf(base, repo.log) && Head(s) == repo.head
  }

  // It is the snapshot step of the write seam, seen as histories.
  lemma SnapshotIsCommit(s: State, base: Root, repo: WriteSeam.Repo)
    requires s.history != [] && SameRepository(s, base, repo)
    ensures SameRepository(Snapshotted(s), base,
                           WriteSeam.CommitStaged(repo.(staged := repo.working), WriteSeam.Snapshot))
  {
    var c := WriteSeam.Commit(WriteSeam.Snapshot, repo.working, repo.head);
    assert (repo.log + [c])[..|repo.log|] == repo.log;
  }

  // A push creates, or fast-forwards.
  predicate Pushable(s: State, backup: string) { backup !in s.dirs || s.dirs[backup] <= s.history }

  function Pushed(s: State, backup: string): State {
    s.(tracking := Some(s.history), dirs := s.dirs[backup := s.history], others := s.others - {backup})
  }

  // `create_dir_all` of the backup directory.
  function Prepared(s: State, backup: string): State {
    if backup in s.dirs then s else s.(others := s.others + {backup})
  }

  // The backup moved aside, and an empty directory in its place.
  function MovedAside(s: State, backup: string, suffix: nat): State
    requires backup in s.dirs
  {
    s.(dirs := Retired(backup, s.dirs, suffix), others := s.others + {backup})
  }

  // Some directory holds this lineage, whole.
  ghost predicate Holds(dirs: map<string, History>, h: History) {
    exists d :: d in dirs && h <= dirs[d]
  }

  // Every lineage that was in some directory still is.
  ghost predicate Conserves(before: map<string, History>, after: map<string, History>) {
    forall d :: d in before ==> Holds(after, before[d])
  }

  lemma PushConserves(s: State, backup: string)
    requires Pushable(s, backup)
    ensures Conserves(s.dirs, Pushed(s, backup).dirs)
  {
    var after := Pushed(s, backup).dirs;
    forall d | d in s.dirs ensures Holds(after, s.dirs[d]) {
      assert d in after && s.dirs[d] <= after[d];
    }
  }

  lemma RetirementConserves(backup: string, dirs: map<string, History>, suffix: nat)
    requires backup in dirs && suffix >= 1 && Candidate(backup, suffix) !in dirs
    ensures Conserves(dirs, Retired(backup, dirs, suffix))
  {
    CandidatesDiffer(backup, suffix, suffix + 1);
    var after := Retired(backup, dirs, suffix);
    forall d | d in dirs ensures Holds(after, dirs[d]) {
      var e := if d == backup then Candidate(backup, suffix) else d;
      assert e in after && after[e] == dirs[d];
    }
  }

  lemma ConservesTwice(a: map<string, History>, b: map<string, History>, c: map<string, History>)
    requires Conserves(a, b) && Conserves(b, c)
    ensures Conserves(a, c)
  {
    forall d | d in a ensures Holds(c, a[d]) {
      assert Holds(b, a[d]);
      var m :| m in b && a[d] <= b[m];
      assert Holds(c, b[m]);
      var e :| e in c && b[m] <= c[e];
    }
  }

  // ---- Every run ----

  datatype Event =
    | Edit(working: Root)
    | Add
    | Reset
    | Commit
    | Clutter(others: set<string>)
    | BackUp(force: bool)

  // A foreign lineage retired to the first free name, and the push repeated or not.
  ghost predicate RetiredTo(s: State, t: State, backup: string, suffix: nat)
    requires s.history != [] && backup in s.dirs
  {
    var moved := MovedAside(Snapshotted(s), backup, suffix);
    FirstFree(backup, Taken(s), suffix) && (t == moved || t == Pushed(moved, backup))
  }

  // The snapshot fails, or the push does, or succeeds, or succeeds after a retirement.
  ghost predicate BackUpStep(s: State, force: bool, t: State, backup: string)
    requires s.history != []
  {
    var p := Prepared(s, backup);
    || t == p.(staged := p.working)
    || t == Snapshotted(p)
    || (Pushable(Snapshotted(p), backup) && t == Pushed(Snapshotted(p), backup))
    || (force && Forced(p, t, backup))
  }

  ghost predicate Forced(p: State, t: State, backup: string)
    requires p.history != []
  {
    && backup in p.dirs && Unrelated(p.dirs[backup], Snapshotted(p).history)
    && exists suffix: nat :: RetiredTo(p, t, backup, suffix)
  }

  // What a step may lead to, `db-backup` being the only pusher. Other files come and go.
  ghost predicate Step(s: State, e: Event, t: State, backup: string)
    requires s.history != []
  {
    match e
    case Edit(w) => t == s.(working := w)
    case Add => t == s.(staged := s.working)
    case Reset => t == s.(working := Head(s), staged := Head(s))
    case Commit => t == if s.staged == Head(s) then s else s.(history := s.history + [s.staged])
    case Clutter(others) => t == s.(others := others)
    case BackUp(force) => BackUpStep(s, force, t, backup)
  }

  // A run: a state for each moment.
  ghost predicate IsRun(states: seq<State>, events: seq<Event>, backup: string) {
    && |states| == |events| + 1
    && Valid(states[0]) && states[0].tracking == None
    && forall k :: 0 <= k < |events| ==> states[k].history != [] && Step(states[k], events[k], states[k + 1], backup)
  }

  // What was last pushed is an earlier state of this history, and is what the backup holds.
  ghost predicate Tracked(s: State, backup: string) {
    && Valid(s)
    && (s.tracking.Some? ==>
          && s.tracking.value != [] && s.tracking.value <= s.history
          && backup in s.dirs && s.dirs[backup] == s.tracking.value)
  }

  // ---- The command ----

  datatype PushOutcome = Done | SnapshotFailed | Refused | UnrelatedHistory | RetryFailed

  // The repository beside its backup directory, as `db-backup` changes them.
  class BackupHost {
    var working: Root
    var staged: Root
    var history: History
    var tracking: Option<History>
    var dirs: map<string, History>
    var others: set<string>

    constructor (s: State)
      ensures Value() == s
    {
      working, staged, history := s.working, s.staged, s.history;
      tracking, dirs, others := s.tracking, s.dirs, s.others;
    }

    function Value(): State
      reads this
    {
      State(working, staged, history, tracking, dirs, others)
    }

    method CreateDirAll(backup: string)
      modifies this`others
      ensures Value() == Prepared(old(Value()), backup)
    {
      if backup !in dirs { others := others + {backup}; }
    }

    // `works`: whether `dolt commit` can commit at all. If not, what was added stays staged.
    method SnapshotWorkingSet(works: bool) returns (ok: bool)
      requires history != []
      modifies this
      ensures ok <==> works || old(working) == Head(old(Value()))
      ensures Value() == if ok then Snapshotted(old(Value())) else old(Value()).(staged := old(working))
    {
      staged := working;
      if working == Head(Value()) { return true; }
      if !works { return false; }
      history := history + [working];
      ok := true;
    }

    // Whatever stands at the path is moved, to a name at which nothing stands. The rename fails
    // if there is nothing to move.
    method RetireForeignBackup(backup: string) returns (r: Option<string>, ghost least: nat)
      modifies this`dirs, this`others
      ensures FirstFree(backup, Taken(old(Value())), least)
      ensures backup in old(dirs) ==>
                r == Some(Candidate(backup, least)) && dirs == Retired(backup, old(dirs), least) && others == old(others)
      ensures backup !in old(dirs) && backup in old(others) ==>
                r == Some(Candidate(backup, least)) && dirs == old(dirs)
                && others == old(others) - {backup} + {Candidate(backup, least)}
      ensures backup !in Taken(old(Value())) ==> r == None && Value() == old(Value())
    {
      var retired;
      retired, least := FreeName(backup, Taken(Value()));
      if backup in dirs {
        dirs := dirs[retired := dirs[backup]] - {backup};
        return Some(retired), least;
      }
      if backup in others {
        others := others - {backup} + {retired};
        return Some(retired), least;
      }
      return None, least;
    }

    // `dolt push`: `works` says whether the engine can write to the directory at all.
    method Push(backup: string, works: bool) returns (ok: bool)
      modifies this`tracking, this`dirs, this`others
      ensures ok <==> works && Pushable(old(Value()), backup)
      ensures Value() == if ok then Pushed(old(Value()), backup) else old(Value())
    {
      ok := works && (backup !in dirs || dirs[backup] <= history);
      if ok { tracking, dirs, others := Some(history), dirs[backup := history], others - {backup}; }
    }

    // The graph leg: snapshot, then push, and with `force` retire what is unrelated and push
    // again.
    method BackUpGraph(backup: string, force: bool, commits: bool, works: bool, retryWorks: bool)
      returns (outcome: PushOutcome)
      requires Valid(Value())
      modifies this
      ensures Step(old(Value()), BackUp(force), Value(), backup)
      // Done is done: nothing pending, and the backup holds this very history.
      ensures outcome == Done ==>
                && staged == working == history[|history| - 1]
                && tracking == Some(history) && backup in dirs && dirs[backup] == history
      ensures outcome != SnapshotFailed ==>
                history == Snapshotted(old(Value())).history && Head(Value()) == old(working)
      // Each outcome has one cause.
      ensures
        // Foreign: it starts from another commit.
        var foreign := backup in old(dirs) && old(dirs)[backup][0] != old(history)[0];
        var stuck := !commits && old(working) != Head(old(Value()));
        && (outcome == SnapshotFailed <==> stuck)
        && (outcome == Done <==>
              !stuck && works && (Pushable(Snapshotted(old(Value())), backup) || (foreign && force && retryWorks)))
        && (outcome == UnrelatedHistory <==> !stuck && works && foreign && !force)
        && (outcome == RetryFailed <==> !stuck && works && foreign && force && !retryWorks)
      ensures outcome == SnapshotFailed ==> Value() == Prepared(old(Value()), backup).(staged := old(working))
      ensures outcome == Refused || outcome == UnrelatedHistory ==> Value() == Snapshotted(Prepared(old(Value()), backup))
    {
      CreateDirAll(backup);
      ghost var p := Value();
      var ok := SnapshotWorkingSet(commits);
      if !ok { return SnapshotFailed; }
      ok := Push(backup, works);
      if ok { return Done; }
      if !works || !Unrelated(dirs[backup], history) { return Refused; }
      if !force { return UnrelatedHistory; }
      ghost var snap := Value();
      var retired, least := RetireForeignBackup(backup);
      CreateDirAll(backup);
      MovesAside(p, snap, Value(), backup, least);
      ok := Push(backup, retryWorks);
      return if ok then Done else RetryFailed;
    }

    // `db-backup`: the graph leg, and only if that succeeded, the session leg. A session leg that
    // fails fails the command, the graph being backed up all the same.
    method DbBackup(fs: Mirror.FileSystem, inc: Mirror.Place, ret: Mirror.Place, fault: Mirror.MirrorFault,
                    backup: string, force: bool, commits: bool, works: bool, retryWorks: bool)
      returns (graph: PushOutcome, sessions: Option<Result<nat, Mirror.IoError>>)
      requires Valid(Value()) && inc.Incoming? && ret.Retiring?
      modifies this, fs
      ensures Step(old(Value()), BackUp(force), Value(), backup)
      ensures graph != Done ==> sessions == None && fs.trees == old(fs.trees)
      ensures graph == Done ==>
                && staged == working == history[|history| - 1]
                && tracking == Some(history) && backup in dirs && dirs[backup] == history
      ensures
        var foreign := backup in old(dirs) && old(dirs)[backup][0] != old(history)[0];
        graph == Done <==>
          && (commits || old(working) == Head(old(Value()))) && works
          && (Pushable(Snapshotted(old(Value())), backup) || (foreign && force && retryWorks))
      ensures graph == Done ==> sessions.Some?
      ensures graph == Done && old(Mirror.LogCount(fs.trees, Mirror.Users)) == 0 ==>
                sessions.value == Success(0) && fs.trees == old(fs.trees)
      ensures graph == Done && old(Mirror.LogCount(fs.trees, Mirror.Users)) > 0 ==>
                && fs.trees == Mirror.AfterMirror(old(fs.trees), inc, ret, fault)
                && (sessions.value.Failure? <==> Mirror.Fails(old(fs.trees), fault))
                && (sessions.value.Success? ==>
                      && sessions.value.value == old(Mirror.LogCount(fs.trees, Mirror.Users))
                      && fs.trees[Mirror.Backup] == old(fs.trees)[Mirror.Users])
    {
      graph := BackUpGraph(backup, force, commits, works, retryWorks);
      if graph != Done { return graph, None; }
      var carried := fs.MirrorUsers(inc, ret, fault);
      sessions := Some(carried);
    }

    // The line a finished session prints. It pushes only when the user opted in, never by force;
    // `pushed` is how that went, graph and sessions both.
    method SessionEnd(fs: Mirror.FileSystem, inc: Mirror.Place, ret: Mirror.Place, fault: Mirror.MirrorFault,
                      backup: string, row: Option<Row>, written: bool, autoBackup: bool, commits: bool, works: bool)
      returns (line: Option<Line>, ghost pushed: bool)
      requires Valid(Value()) && inc.Incoming? && ret.Retiring?
      modifies this, fs
      // Only a session that wrote says anything, and only one that opted in changes anything.
      ensures !written ==> line == None
      ensures !written || !autoBackup || !(Blind(row) || Drifted(row)) ==> Value() == old(Value()) && fs.trees == old(fs.trees)
      ensures written ==>
                && (line == None <==> !Blind(row) && !Drifted(row))
                && (line == Some(Reminder) <==> Drifted(row) && !autoBackup)
                && (line == Some(BlindProbe) <==> Blind(row) && !autoBackup)
                && (line == Some(BackedUp) <==> Drifted(row) && autoBackup && pushed)
                && (line == Some(BackedUpBlindly) <==> Blind(row) && autoBackup && pushed)
                && (line == Some(BackupFailed) <==> (Blind(row) || Drifted(row)) && autoBackup && !pushed)
      // And it lands exactly if the snapshot, the push and the mirror do.
      ensures pushed <==>
                && written && autoBackup && (Blind(row) || Drifted(row))
                && (commits || old(working) == Head(old(Value())))
                && works && Pushable(Snapshotted(old(Value())), backup)
                && (old(Mirror.LogCount(fs.trees, Mirror.Users)) == 0 || !Mirror.Fails(old(fs.trees), fault))
      // A line that says the graph was pushed is true: nothing is pending, and the backup holds
      // this very history.
      ensures line == Some(BackedUp) || line == Some(BackedUpBlindly) ==>
                && autoBackup && history != [] && staged == working == history[|history| - 1]
                && backup in dirs && dirs[backup] == history && tracking == Some(history)
      // The failure line says the graph is not backed up. When the push landed and only the mirror
      // failed, it is.
      ensures
        && written && autoBackup && (Blind(row) || Drifted(row))
        && (commits || old(working) == Head(old(Value())))
        && works && Pushable(Snapshotted(old(Value())), backup)
        && old(Mirror.LogCount(fs.trees, Mirror.Users)) > 0 && Mirror.Fails(old(fs.trees), fault)
        ==> line == Some(BackupFailed) && history != [] && working == history[|history| - 1]
              && backup in dirs && dirs[backup] == history
      // And no lineage is moved from where it stands.
      ensures forall d :: d in old(dirs) ==> d in dirs && old(dirs)[d] <= dirs[d]
    {
      pushed := false;
      if !written { return None, false; }
      var position := PositionFromRow(row);
      var landed := false;
      if position != UpToDate && autoBackup {
        var graph, sessions := DbBackup(fs, inc, ret, fault, backup, false, commits, works, false);
        landed := graph == Done && sessions.Some? && sessions.value.Success?;
      }
      FooterSays(row, autoBackup, landed);
      return DurabilityFooter(position, autoBackup, landed), landed;
    }
  }

  lemma MovesAside(p: State, snap: State, t: State, backup: string, least: nat)
    requires p.history != [] && snap == Snapshotted(p) && backup in p.dirs
    requires FirstFree(backup, Taken(snap), least)
    requires t == Prepared(snap.(dirs := Retired(backup, snap.dirs, least)), backup)
    ensures RetiredTo(p, t, backup, least) && RetiredTo(p, Pushed(t, backup), backup, least)
    ensures backup !in t.dirs
  {
    CandidatesDiffer(backup, least, least + 1);
    assert t == MovedAside(snap, backup, least);
  }

  lemma PushStep(s: State, backup: string)
    requires Tracked(s, backup) && Pushable(Snapshotted(s), backup)
    ensures Tracked(Pushed(Snapshotted(s), backup), backup)
    ensures Conserves(s.dirs, Pushed(Snapshotted(s), backup).dirs)
  {
    PushConserves(Snapshotted(s), backup);
  }

  // What was pushed from here is never unrelated, so only a foreign lineage is ever retired.
  lemma RetireStep(s: State, backup: string, suffix: nat)
    requires Tracked(s, backup) && backup in s.dirs && Unrelated(s.dirs[backup], Snapshotted(s).history)
    requires FirstFree(backup, Taken(s), suffix)
    ensures
      var moved := MovedAside(Snapshotted(s), backup, suffix);
      && Tracked(moved, backup) && Tracked(Pushed(moved, backup), backup)
      && Conserves(s.dirs, moved.dirs) && Conserves(s.dirs, Pushed(moved, backup).dirs)
  {
    var moved := MovedAside(Snapshotted(s), backup, suffix);
    assert s.tracking == None;
    CandidatesDiffer(backup, suffix, suffix + 1);
    RetirementConserves(backup, s.dirs, suffix);
    PushConserves(moved, backup);
    ConservesTwice(s.dirs, moved.dirs, Pushed(moved, backup).dirs);
  }

  lemma NothingMoves(dirs: map<string, History>)
    ensures Conserves(dirs, dirs)
  {
    forall d | d in dirs ensures Holds(dirs, dirs[d]) {
      assert dirs[d] <= dirs[d];
    }
  }

  lemma ForcedKeeps(p: State, t: State, backup: string)
    requires Tracked(p, backup) && Forced(p, t, backup)
    ensures Tracked(t, backup) && Conserves(p.dirs, t.dirs)
  {
    var suffix: nat :| RetiredTo(p, t, backup, suffix);
    RetireStep(p, backup, suffix);
  }

  lemma SnapshotKeeps(s: State, backup: string)
    requires Tracked(s, backup)
    ensures Tracked(Prepared(s, backup), backup) && Tracked(s.(staged := s.working), backup)
    ensures Tracked(Snapshotted(s), backup)
    ensures Prepared(s, backup).dirs == Snapshotted(s).dirs == s.dirs
  {
  }

  lemma BackUpKeeps(s: State, force: bool, t: State, backup: string)
    requires Tracked(s, backup) && BackUpStep(s, force, t, backup)
    ensures Tracked(t, backup) && Conserves(s.dirs, t.dirs)
  {
    var p := Prepared(s, backup);
    SnapshotKeeps(s, backup);
    SnapshotKeeps(p, backup);
    NothingMoves(s.dirs);
    if Pushable(Snapshotted(p), backup) && t == Pushed(Snapshotted(p), backup) {
      PushStep(p, backup);
    } else if force && Forced(p, t, backup) {
      ForcedKeeps(p, t, backup);
    }
  }

  lemma TrackedStep(s: State, e: Event, t: State, backup: string)
    requires Tracked(s, backup) && Step(s, e, t, backup)
    ensures Tracked(t, backup) && Conserves(s.dirs, t.dirs)
  {
    match e
    case BackUp(force) => BackUpKeeps(s, force, t, backup);
    case _ => NothingMoves(s.dirs);
  }

  lemma {:induction false} TrackedAlways(states: seq<State>, events: seq<Event>, backup: string, k: nat)
    requires IsRun(states, events, backup) && k < |states|
    ensures Tracked(states[k], backup)
    decreases k
  {
    if k > 0 {
      TrackedAlways(states, events, backup, k - 1);
      TrackedStep(states[k - 1], events[k - 1], states[k], backup);
    }
  }

  // When the footer is silent, over every run of edits, commits, failed and successful and forced
  // backups, and whatever the probe could read: exactly when it read that the last push was of
  // HEAD, and did not read that something is pending. A probe with no row, or with no branch or
  // no tracking ref in it, is never silent. Silence always means the backup holds HEAD's whole
  // history; with a readable count, also that nothing is pending on top.
  lemma SilenceMeansBackedUp(states: seq<State>, events: seq<Event>, backup: string, row: Option<Row>, autoBackup: bool, pushed: bool)
    requires IsRun(states, events, backup) && states[|events|].history != []
    requires row.Some? ==> Truthful(row.value, states[|events|])
    ensures
      var s := states[|events|];
      var silent := DurabilityFooter(PositionFromRow(row), autoBackup, pushed) == None;
      && (silent <==>
            && row.Some? && row.value.local.Some? && row.value.backup.Some?
            && s.tracking == Some(s.history) && (row.value.pending.None? || Clean(s)))
      && (silent ==> backup in s.dirs && s.dirs[backup] == s.history)
      && (silent && row.value.pending.Some? ==> s.working == Head(s))
  {
    TrackedAlways(states, events, backup, |events|);
  }

  // The concrete gap: a hand edit on top of a pushed HEAD, a probe whose count cannot be read,
  // and nothing is said.
  lemma UnreadableCountIsSilent(head: Root, edited: Root, backup: string, autoBackup: bool, pushed: bool)
    requires edited != head
    ensures
      var s := State(edited, head, [head], Some([head]), map[backup := [head]], {});
      var row := Row(Some([head]), Some([head]), None);
      && Truthful(row, s) && Tracked(s, backup) && !Clean(s)
      && DurabilityFooter(PositionFromRow(Some(row)), autoBackup, pushed) == None
  {
  }

  // No run of backups, forced or not, ever loses a lineage.
  lemma {:induction false} LineagesAreConserved(states: seq<State>, events: seq<Event>, backup: string, i: nat, j: nat)
    requires IsRun(states, events, backup) && i <= j < |states|
    ensures Conserves(states[i].dirs, states[j].dirs)
    decreases j
  {
    if i < j {
      LineagesAreConserved(states, events, backup, i, j - 1);
      TrackedAlways(states, events, backup, j - 1);
      TrackedStep(states[j - 1], events[j - 1], states[j], backup);
      ConservesTwice(states[i].dirs, states[j - 1].dirs, states[j].dirs);
    } else {
      NothingMoves(states[i].dirs);
    }
  }
}
