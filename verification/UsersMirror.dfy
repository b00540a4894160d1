/** The session-history backup of db_backup.rs: copied beside the backup first, then swapped in.
    One system call a step, a crash allowed after each, scratch names free to repeat. */
module UsersMirror {
  import opened Wrappers
  import opened FileTree

  // The live sessions, their backup, and the scratch siblings of the backup.
  datatype Place = Users | Backup | Incoming(pid: nat, seqNo: nat) | Retiring(pid: nat, seqNo: nat)

  type Disk = map<Place, Tree>

  ghost function LogCount(d: Disk, p: Place): nat { if p in d then LogsIn("", d[p]) else 0 }

  // ---- Uninterrupted ----

  // A whole mirror: the backup is the sessions, and no scratch is left.
  function Mirrored(d: Disk, inc: Place, ret: Place): Disk
    requires Users in d
  {
    d[Backup := d[Users]] - (if Backup in d then {inc, ret} else {inc})
  }

  datatype MirrorFault = NoFault | CopyFails(partial: Tree) | AsideFails | SwapFails(putBack: bool)

  datatype IoError = IoError | NotEmpty

  // What a mirror of a source with sessions leaves behind, whichever call fails. A failing
  // rename of the backup needs a backup to rename.
  ghost function AfterMirror(d: Disk, inc: Place, ret: Place, fault: MirrorFault): Disk
    requires Users in d
  {
    match fault
    case NoFault => Mirrored(d, inc, ret)
    case CopyFails(partial) => d[inc := partial]
    case AsideFails => if Backup in d then d[inc := d[Users]] - {ret} else Mirrored(d, inc, ret)
    case SwapFails(putBack) =>
      if Backup !in d then d - {inc}
      else if putBack then d - {inc, ret}
      else d[ret := d[Backup]] - {Backup, inc}
  }

  predicate Fails(d: Disk, fault: MirrorFault) {
    fault.CopyFails? || fault.SwapFails? || (fault.AsideFails? && Backup in d)
  }

  class FileSystem {
    var trees: Disk

    constructor (trees: Disk)
      ensures this.trees == trees
    {
      this.trees := trees;
    }

    method Count(p: Place) returns (count: nat)
      ensures count == LogCount(trees, p)
    {
      if p !in trees { return 0; }
      count := CountSessionLogs(trees[p]);
    }

    method RemoveDirAll(p: Place)
      modifies this
      ensures trees == old(trees) - {p}
    {
      trees := trees - {p};
    }

    method Rename(from: Place, to: Place)
      requires from in trees && to !in trees
      modifies this
      ensures trees == old(trees)[to := old(trees)[from]] - {from}
    {
      trees := trees[to := trees[from]] - {from};
    }

    method MirrorUsers(inc: Place, ret: Place, fault: MirrorFault) returns (r: Result<nat, IoError>)
      requires inc.Incoming? && ret.Retiring?
      modifies this
      // An empty source changes nothing: a good backup is never mirrored over with emptiness.
      ensures old(LogCount(trees, Users)) == 0 ==> r == Success(0) && trees == old(trees)
      ensures old(LogCount(trees, Users)) > 0 ==>
                && r == (if Fails(old(trees), fault) then Failure(IoError.IoError) else Success(old(LogCount(trees, Users))))
                && trees == AfterMirror(old(trees), inc, ret, fault)
      ensures r.Success? && r.value > 0 ==> trees == Mirrored(old(trees), inc, ret)
      // A failure leaves the old backup in place, or moved aside whole if it could not be put back.
      ensures r.Failure? ==>
                old(LogCount(trees, Users)) > 0 && (Backup in trees ==> Backup in old(trees) && trees[Backup] == old(trees)[Backup])
      ensures r.Failure? && Backup in old(trees) ==>
                if fault == SwapFails(false) then ret in trees && trees[ret] == old(trees)[Backup] else Backup in trees
    {
      var carried := Count(Users);
      if carried == 0 { return Success(0); }
      RemoveDirAll(inc);
      if fault.CopyFails? {
        trees := trees[inc := fault.partial];
        return Failure(IoError);
      }
      assert LogsIn("", trees[Users]) > 0;
      var copy := CopyDirAll(trees[Users]);
      trees := trees[inc := copy];
      var ok := SwapIn(inc, ret, fault);
      if !ok { return Failure(IoError); }
      return Success(carried);
    }

    // The complete copy takes the backup's place: the old one aside, the new one in, and only
    // then the old one gone.
    method SwapIn(inc: Place, ret: Place, fault: MirrorFault) returns (ok: bool)
      requires inc.Incoming? && ret.Retiring? && inc in trees
      modifies this
      ensures ok <==> !fault.SwapFails? && !(fault.AsideFails? && Backup in old(trees))
      ensures ok ==> trees == old(trees)[Backup := old(trees)[inc]] - (if Backup in old(trees) then {inc, ret} else {inc})
      ensures !ok && fault.AsideFails? ==> trees == old(trees) - {ret}
      ensures !ok && fault.SwapFails? ==>
                trees == if Backup !in old(trees) then old(trees) - {inc}
                         else if fault.putBack then old(trees) - {inc, ret}
                         else old(trees)[ret := old(trees)[Backup]] - {Backup, inc}
    {
      var had := Backup in trees;
      if had {
        RemoveDirAll(ret);
        if fault.AsideFails? { return false; }
        Rename(Backup, ret);
      }
      if fault.SwapFails? {
        if had && fault.putBack { Rename(ret, Backup); }
        RemoveDirAll(inc);
        return false;
      }
      Rename(inc, Backup);
      if had { RemoveDirAll(ret); }
      return true;
    }

    // Refuses a target that holds anything; a missing backup is a note, not an error.
    method RestoreUsers() returns (r: Result<nat, IoError>)
      modifies this
      ensures Backup !in old(trees) ==> r == Success(0) && trees == old(trees)
      ensures r.Success? && Backup in old(trees) ==>
                && trees == old(trees)[Users := old(trees)[Backup]]
                && r.value == LogCount(trees, Users) == LogCount(trees, Backup)
      ensures r.Success? <==>
                || Backup !in old(trees)
                || (old(trees)[Backup].Dir? && (Users in old(trees) ==> old(trees)[Users] == Dir(map[])))
      ensures Users in old(trees) && Backup in old(trees) && old(trees)[Users] != Dir(map[]) ==>
                trees == old(trees) && r == Failure(if old(trees)[Users].Dir? then NotEmpty else IoError.IoError)
    {
      if Backup !in trees { return Success(0); }
      if Users in trees {
        if trees[Users].File? { return Failure(IoError); }
        if trees[Users].entries != map[] { return Failure(NotEmpty); }
      }
      var carried := Count(Backup);
      trees := trees - {Users};
      if trees[Backup].File? {
        trees := trees[Users := Dir(map[])];
        return Failure(IoError);
      }
      var copy := CopyDirAll(trees[Backup]);
      trees := trees[Users := copy];
      return Success(carried);
    }

    // Backed up, lost, restored: the same tree, and as many logs reported each time.
    method MirrorThenRestore(inc: Place, ret: Place) returns (carried: nat, restored: nat)
      requires inc.Incoming? && ret.Retiring? && LogCount(trees, Users) > 0
      modifies this
      ensures Users in trees && trees[Users] == old(trees)[Users]
      ensures carried == restored == old(LogCount(trees, Users))
    {
      var m := MirrorUsers(inc, ret, NoFault);
      carried := m.value;
      RemoveDirAll(Users);
      var r := RestoreUsers();
      restored := r.value;
    }
  }

  // ---- Interrupted ----

  datatype Phase =
    | Idle
    | ClearingIncoming | Copying | Copied
    | ClearingRetiring | RetiringClear | MovedAside
    | SwapFailed | Cleaning | Swapped

  // `had`: whether this run found a backup to move aside.
  datatype State = State(trees: Disk, phase: Phase, inc: Place, ret: Place, had: bool)

  datatype Event =
    | Edit(users: Option<Tree>)
    | Begin(pid: nat, incoming: nat, retiring: nat)
    | ClearSome(left: Tree)
    | ClearAll
    | CopySome(partial: Tree)
    | CopyAll
    | CopyFault
    | LookForBackup
    | MoveAside
    | MoveAsideFault
    | Swap
    | SwapFault
    | PutBack
    | PutBackFault
    | Crash

  // A run removes trees entry by entry: `ClearSome` leaves anything, `ClearAll` ends it.
  function Doomed(s: State): Place { if s.phase == ClearingRetiring || s.phase == Swapped then s.ret else s.inc }

  ghost predicate Enabled(s: State, e: Event) {
    match e
    case Edit(_) => s.phase == Idle
    case Begin(_, _, _) => s.phase == Idle
    case ClearSome(_) => s.phase in {ClearingIncoming, ClearingRetiring, Cleaning, Swapped} && Doomed(s) in s.trees
    case ClearAll => s.phase in {ClearingIncoming, ClearingRetiring, Cleaning, Swapped}
    case CopySome(_) => s.phase == Copying
    case CopyAll => s.phase == Copying
    case CopyFault => s.phase == Copying
    case LookForBackup => s.phase == Copied
    case MoveAside => s.phase == RetiringClear
    case MoveAsideFault => s.phase == RetiringClear
    case Swap => s.phase == MovedAside
    case SwapFault => s.phase == MovedAside
    case PutBack => s.phase == SwapFailed && s.had
    case PutBackFault => s.phase == SwapFailed
    case Crash => s.phase != Idle
  }

  ghost function Next(s: State, e: Event): State {
    var d := s.trees;
    match e
    case Edit(users) => s.(trees := if users.Some? then d[Users := users.value] else d - {Users})
    case Begin(pid, incoming, retiring) =>
      if LogCount(d, Users) == 0 then s
      else State(d, ClearingIncoming, Incoming(pid, incoming), Retiring(pid, retiring), false)
    case ClearSome(left) => s.(trees := d[Doomed(s) := left])
    case ClearAll =>
      s.(trees := if s.phase == Swapped && !s.had then d else d - {Doomed(s)},
         phase := if s.phase == ClearingIncoming then Copying
                  else if s.phase == ClearingRetiring then RetiringClear
                  else Idle)
    case CopySome(partial) => s.(trees := d[s.inc := partial])
    case CopyAll => if Users in d then s.(trees := d[s.inc := d[Users]], phase := Copied) else s
    case CopyFault => s.(phase := Idle)
    case LookForBackup =>
      s.(had := Backup in d, phase := if Backup in d then ClearingRetiring else MovedAside)
    case MoveAside => if Backup in d then s.(trees := d[s.ret := d[Backup]] - {Backup}, phase := MovedAside) else s
    case MoveAsideFault => s.(phase := Idle)
    case Swap => if s.inc in d then s.(trees := d[Backup := d[s.inc]] - {s.inc}, phase := Swapped) else s
    case SwapFault => s.(phase := SwapFailed)
    case PutBack => if s.ret in d then s.(trees := d[Backup := d[s.ret]] - {s.ret}, phase := Cleaning) else s
    case PutBackFault => s.(phase := Cleaning)
    case Crash => s.(phase := Idle)
  }

  ghost function Run(s0: State, events: seq<Event>): State {
    if events == [] then s0
    else Next(Run(s0, events[..|events| - 1]), events[|events| - 1])
  }

  ghost predicate Possible(s0: State, events: seq<Event>) {
    events == [] ||
    (Possible(s0, events[..|events| - 1]) && Enabled(Run(s0, events[..|events| - 1]), events[|events| - 1]))
  }

  // A snapshot: the first backup, or the whole of the live sessions as a run finished copying
  // them.
  ghost predicate Snapshot(t: Tree, s0: State, events: seq<Event>) {
    || (Backup in s0.trees && s0.trees[Backup] == t)
    || exists i :: && 0 <= i < |events| && events[i].CopyAll?
                   && Users in Run(s0, events[..i]).trees && Run(s0, events[..i]).trees[Users] == t
  }

  // What every step keeps, for a class of trees that are complete.
  ghost predicate Sound(s: State, ok: Tree -> bool) {
    && s.inc.Incoming? && s.ret.Retiring?
    && (Backup in s.trees ==> ok(s.trees[Backup]))
    && (s.phase in {Copied, ClearingRetiring, RetiringClear, MovedAside} ==>
          s.inc in s.trees && ok(s.trees[s.inc]))
    && (s.phase in {ClearingRetiring, RetiringClear} ==> Backup in s.trees && s.had)
    && (s.phase in {MovedAside, SwapFailed} ==>
          Backup !in s.trees && (s.had ==> s.ret in s.trees && ok(s.trees[s.ret])))
    && (s.phase == Swapped ==> Backup in s.trees)
    && (s.phase in {ClearingIncoming, Copying} ==> LogCount(s.trees, Users) > 0)
  }

  // Some path holds a complete snapshot: the backup, or a copy moved aside from it.
  ghost predicate Kept(s: State, ok: Tree -> bool) {
    || Backup in s.trees
    || exists pid, n :: Retiring(pid, n) in s.trees && ok(s.trees[Retiring(pid, n)])
  }

  lemma SoundStep(s: State, e: Event, ok: Tree -> bool, more: Tree -> bool)
    requires Enabled(s, e) && Sound(s, ok)
    requires forall t :: ok(t) ==> more(t)
    requires e.CopyAll? && Users in s.trees ==> more(s.trees[Users])
    ensures Sound(Next(s, e), more)
  {
  }

  lemma KeptStep(s: State, e: Event, ok: Tree -> bool)
    requires Enabled(s, e) && Sound(s, ok) && Kept(s, ok)
    ensures Kept(Next(s, e), ok)
  {
    var t := Next(s, e);
    if Backup !in t.trees {
      if Backup in s.trees {
        assert e.MoveAside? && Retiring(s.ret.pid, s.ret.seqNo) in t.trees;
      } else {
        var pid, n :| Retiring(pid, n) in s.trees && ok(s.trees[Retiring(pid, n)]);
        assert Retiring(pid, n) in t.trees && t.trees[Retiring(pid, n)] == s.trees[Retiring(pid, n)];
      }
    }
  }

  lemma SnapshotLater(s0: State, events: seq<Event>, e: Event)
    ensures forall t :: Snapshot(t, s0, events) ==> Snapshot(t, s0, events + [e])
    ensures e.CopyAll? && Users in Run(s0, events).trees ==>
              Snapshot(Run(s0, events).trees[Users], s0, events + [e])
  {
    var all := events + [e];
    assert all[..|events|] == events && all[|events|] == e;
    forall t | Snapshot(t, s0, events) ensures Snapshot(t, s0, all) {
      if !(Backup in s0.trees && s0.trees[Backup] == t) {
        var i :| 0 <= i < |events| && events[i].CopyAll? && Users in Run(s0, events[..i]).trees
                 && Run(s0, events[..i]).trees[Users] == t;
        assert all[..i] == events[..i] && all[i] == events[i];
      }
    }
  }

  ghost predicate Start(s: State) { s.phase == Idle && s.inc.Incoming? && s.ret.Retiring? }

  // Over any sequence of completed, failed, crashed and restarted runs, the backup path is
  // absent or holds exactly one complete snapshot. Nothing half-copied is ever there.
  lemma {:induction false} BackupIsNeverPartial(s0: State, events: seq<Event>)
    requires Start(s0) && Possible(s0, events)
    ensures Sound(Run(s0, events), t => Snapshot(t, s0, events))
    ensures Backup in Run(s0, events).trees ==> Snapshot(Run(s0, events).trees[Backup], s0, events)
    decreases |events|
  {
    if events != [] {
      var rest, e := events[..|events| - 1], events[|events| - 1];
      assert events == rest + [e];
      BackupIsNeverPartial(s0, rest);
      SnapshotLater(s0, rest, e);
      SoundStep(Run(s0, rest), e, t => Snapshot(t, s0, rest), t => Snapshot(t, s0, events));
    }
  }

  // Once there has been a backup, some path holds a complete snapshot ever after.
  lemma {:induction false} ASnapshotSurvives(s0: State, events: seq<Event>, i: nat)
    requires Start(s0) && Possible(s0, events)
    requires i <= |events| && Backup in Run(s0, events[..i]).trees
    ensures Kept(Run(s0, events), t => Snapshot(t, s0, events))
    decreases |events|
  {
    if i == |events| {
      assert events[..i] == events;
    } else {
      var rest, e := events[..|events| - 1], events[|events| - 1];
      assert events == rest + [e] && rest[..i] == events[..i];
      ASnapshotSurvives(s0, rest, i);
      BackupIsNeverPartial(s0, rest);
      KeptStep(Run(s0, rest), e, t => Snapshot(t, s0, rest));
      SnapshotLater(s0, rest, e);
    }
  }

  // A run that is not interrupted, with the given call failing, from its first step on.
  ghost function AfterCopy(s: State, pid: nat, incoming: nat, retiring: nat): State {
    Next(Next(Next(s, Begin(pid, incoming, retiring)), ClearAll), CopyAll)
  }

  ghost function AfterAside(s: State): State {
    if Backup in s.trees then Next(Next(Next(s, LookForBackup), ClearAll), MoveAside) else Next(s, LookForBackup)
  }

  ghost function WholeRun(s: State, pid: nat, incoming: nat, retiring: nat, fault: MirrorFault): State {
    var copied := AfterCopy(s, pid, incoming, retiring);
    match fault
    case NoFault => Next(Next(AfterAside(copied), Swap), ClearAll)
    case CopyFails(partial) =>
      Next(Next(Next(Next(s, Begin(pid, incoming, retiring)), ClearAll), CopySome(partial)), CopyFault)
    case AsideFails =>
      if Backup in s.trees then Next(Next(Next(copied, LookForBackup), ClearAll), MoveAsideFault)
      else Next(Next(AfterAside(copied), Swap), ClearAll)
    case SwapFails(putBack) =>
      var failed := Next(AfterAside(copied), SwapFault);
      Next(Next(failed, if putBack && Backup in s.trees then PutBack else PutBackFault), ClearAll)
  }

  lemma CopiedIs(s: State, pid: nat, incoming: nat, retiring: nat)
    requires s.phase == Idle && LogCount(s.trees, Users) > 0
    ensures
      var inc, ret := Incoming(pid, incoming), Retiring(pid, retiring);
      AfterCopy(s, pid, incoming, retiring) == State(s.trees[inc := s.trees[Users]], Copied, inc, ret, false)
  {
    var inc := Incoming(pid, incoming);
    assert (s.trees - {inc})[inc := s.trees[Users]] == s.trees[inc := s.trees[Users]];
  }

  lemma AsideIs(s: State)
    requires s.phase == Copied && s.inc.Incoming? && s.ret.Retiring? && !s.had
    ensures
      AfterAside(s) ==
        if Backup in s.trees
        then s.(trees := s.trees[s.ret := s.trees[Backup]] - {Backup}, phase := MovedAside, had := true)
        else s.(phase := MovedAside)
  {
    if Backup in s.trees {
      assert (s.trees - {s.ret})[s.ret := s.trees[Backup]] == s.trees[s.ret := s.trees[Backup]];
    }
  }

  // From a complete copy on: swapped in, or rolled back as far as it can be.
  lemma SwapEnds(d: Disk, s: State)
    requires Users in d && s.inc.Incoming? && s.ret.Retiring? && !s.had
    requires s.phase == Copied && s.trees == d[s.inc := d[Users]]
    ensures
      var end := Next(Next(AfterAside(s), Swap), ClearAll);
      end.phase == Idle && end.trees == Mirrored(d, s.inc, s.ret)
  {
    AsideIs(s);
    SwappedIs(d, s.inc, s.ret);
  }

  lemma RollBackEnds(d: Disk, s: State, putBack: bool)
    requires Users in d && s.inc.Incoming? && s.ret.Retiring? && !s.had
    requires s.phase == Copied && s.trees == d[s.inc := d[Users]]
    ensures
      var failed := Next(AfterAside(s), SwapFault);
      var end := Next(Next(failed, if putBack && Backup in d then PutBack else PutBackFault), ClearAll);
      end.phase == Idle && end.trees == AfterMirror(d, s.inc, s.ret, SwapFails(putBack))
  {
    AsideIs(s);
    UnswappedIs(d, s.inc, s.ret);
  }

  // A run that is not interrupted ends as `mirror_users` does, whichever call fails, and
  // whatever an earlier run left under the scratch names it happens to use.
  lemma WholeRunMirrors(s: State, pid: nat, incoming: nat, retiring: nat, fault: MirrorFault)
    requires s.phase == Idle && LogCount(s.trees, Users) > 0
    ensures
      var end := WholeRun(s, pid, incoming, retiring, fault);
      && end.phase == Idle
      && end.trees == AfterMirror(s.trees, Incoming(pid, incoming), Retiring(pid, retiring), fault)
  {
    var inc, ret := Incoming(pid, incoming), Retiring(pid, retiring);
    CopiedIs(s, pid, incoming, retiring);
    var copied := AfterCopy(s, pid, incoming, retiring);
    match fault
    case CopyFails(partial) => assert (s.trees - {inc})[inc := partial] == s.trees[inc := partial];
    case AsideFails => if Backup !in s.trees { SwapEnds(s.trees, copied); }
    case NoFault => SwapEnds(s.trees, copied);
    case SwapFails(putBack) => RollBackEnds(s.trees, copied, putBack);
  }

  lemma SwappedIs(d: Disk, inc: Place, ret: Place)
    requires Users in d && inc.Incoming? && ret.Retiring?
    ensures
      var copied := d[inc := d[Users]];
      && (Backup in d ==>
            var aside := copied[ret := copied[Backup]] - {Backup};
            (aside[Backup := aside[inc]] - {inc}) - {ret} == Mirrored(d, inc, ret))
      && (Backup !in d ==> copied[Backup := copied[inc]] - {inc} == Mirrored(d, inc, ret))
  {
  }

  lemma UnswappedIs(d: Disk, inc: Place, ret: Place)
    requires Users in d && inc.Incoming? && ret.Retiring?
    ensures
      var copied := d[inc := d[Users]];
      && (Backup in d ==>
            var aside := copied[ret := copied[Backup]] - {Backup};
            && aside - {inc} == d[ret := d[Backup]] - {Backup, inc}
            && (aside[Backup := aside[ret]] - {ret}) - {inc} == d - {inc, ret})
      && (Backup !in d ==> copied - {inc} == d - {inc})
  {
  }

  // ---- The gap between the two renames ----

  predicate Fills(e: Event) { e == Swap || e == PutBack }

  // The backup has been moved aside, and nothing put in its place since.
  ghost predicate InGap(events: seq<Event>, from: nat) {
    exists m :: from <= m < |events| && events[m] == MoveAside && forall k :: m < k < |events| ==> !Fills(events[k])
  }

  lemma GapStep(events: seq<Event>, from: nat, e: Event)
    requires from <= |events|
    ensures InGap(events + [e], from) <==> e == MoveAside || (!Fills(e) && InGap(events, from))
  {
    var all := events + [e];
    if e == MoveAside { assert all[|events|] == MoveAside; }
    if InGap(all, from) && e != MoveAside {
      var m :| from <= m < |all| && all[m] == MoveAside && forall k :: m < k < |all| ==> !Fills(all[k]);
      assert all[|events|] == e && events[m] == MoveAside;
      assert forall k :: m < k < |events| ==> events[k] == all[k];
    }
    if InGap(events, from) && !Fills(e) {
      var m :| from <= m < |events| && events[m] == MoveAside && forall k :: m < k < |events| ==> !Fills(events[k]);
      assert all[m] == MoveAside;
    }
  }

  // Once there has been a backup, the backup path is absent exactly in the gap that a crash, or
  // a swap that failed for good, leaves open: moved aside, and neither a new copy renamed in
  // nor the old one put back since.
  lemma {:induction false} AbsentExactlyInGap(s0: State, events: seq<Event>, i: nat)
    requires Start(s0) && Possible(s0, events)
    requires i <= |events| && Backup in Run(s0, events[..i]).trees
    ensures Backup !in Run(s0, events).trees <==> InGap(events, i)
    decreases |events|
  {
    if i == |events| {
      assert events[..i] == events;
    } else {
      var rest, e := events[..|events| - 1], events[|events| - 1];
      assert events == rest + [e] && rest[..i] == events[..i];
      AbsentExactlyInGap(s0, rest, i);
      BackupIsNeverPartial(s0, rest);
      GapStep(rest, i, e);
      BackupStep(Run(s0, rest), e, t => Snapshot(t, s0, rest));
    }
  }

  lemma BackupStep(s: State, e: Event, ok: Tree -> bool)
    requires Enabled(s, e) && Sound(s, ok)
    ensures Backup !in Next(s, e).trees <==> e == MoveAside || (!Fills(e) && Backup !in s.trees)
  {
  }

  // The concrete case: a run killed between its renames. The backup path is absent; the new copy
  // and the old one both stand whole under their scratch names.
  lemma KilledBetweenRenames(s: State, pid: nat, incoming: nat, retiring: nat)
    requires s.phase == Idle && LogCount(s.trees, Users) > 0 && Backup in s.trees
    ensures
      var inc, ret := Incoming(pid, incoming), Retiring(pid, retiring);
      var killed := Next(AfterAside(AfterCopy(s, pid, incoming, retiring)), Crash);
      && killed.phase == Idle && Backup !in killed.trees
      && inc in killed.trees && killed.trees[inc] == s.trees[Users]
      && ret in killed.trees && killed.trees[ret] == s.trees[Backup]
  {
    CopiedIs(s, pid, incoming, retiring);
    AsideIs(AfterCopy(s, pid, incoming, retiring));
  }

  // A restore attempted in the gap finds no backup: it reports nothing restored, and no error,
  // though a complete copy stands beside the path.
  method RestoreInGap(fs: FileSystem, ghost s0: State, ghost events: seq<Event>, ghost i: nat)
    returns (r: Result<nat, IoError>)
    requires Start(s0) && Possible(s0, events) && fs.trees == Run(s0, events).trees
    requires i <= |events| && Backup in Run(s0, events[..i]).trees && InGap(events, i)
    modifies fs
    ensures r == Success(0) && fs.trees == old(fs.trees)
    ensures Kept(Run(s0, events), t => Snapshot(t, s0, events))
  {
    AbsentExactlyInGap(s0, events, i);
    ASnapshotSurvives(s0, events, i);
    r := fs.RestoreUsers();
  }
}
