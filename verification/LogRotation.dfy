/** The shared diagnostic log (diagnostics.rs): many writers append under one lock, and the one
    that finds the log full copies it aside, renames the copy into place, and truncates.

    File contents are bytes, one `char` each. The lock is always granted, and writing one line
    is one step. */
module LogRotation {
  import opened Wrappers
  import opened Text

  // The size at which the log rotates, and the name of the kept generation.
  datatype Config = Config(limit: nat, previousPath: string)

  function Note(c: Config, size: nat): string {
    "-- rotated at " + Decimal(size) + " bytes; the previous entries are in " + c.previousPath + " --"
  }

  // The note says how large the log was and where its entries went, on one line.
  lemma NoteSays(c: Config, size: nat)
    requires '\n' !in c.previousPath
    ensures Encloses("-- rotated at " + Decimal(size) + " bytes", Note(c, size), c.previousPath + " --")
    ensures '\n' !in Note(c, size)
  {
    NoteParts(c, size);
    DecimalIsOneLine(size);
    Enclosed("-- rotated at " + Decimal(size) + " bytes", "; the previous entries are in ", c.previousPath + " --");
  }

  lemma DecimalIsOneLine(n: nat)
    ensures '\n' !in Decimal(n)
  {
    DecimalRoundTrip(n);
    assert forall k :: 0 <= k < |Decimal(n)| ==> IsDigit(Decimal(n)[k]);
  }

  lemma NoteParts(c: Config, size: nat)
    ensures Note(c, size)
         == "-- rotated at " + Decimal(size) + " bytes" + "; the previous entries are in " + (c.previousPath + " --")
  {
    assert " bytes; the previous entries are in " == " bytes" + "; the previous entries are in ";
  }

  predicate Encloses(head: string, s: string, tail: string) {
    head <= s && |s| >= |tail| && s[|s| - |tail|..] == tail
  }

  lemma Enclosed(head: string, middle: string, tail: string)
    ensures Encloses(head, head + middle + tail, tail)
  {
  }

  // ---- One uninterrupted append ----

  datatype Files = Files(live: string, previous: Option<string>, staging: Option<string>)

  // Which of the three system calls of a rotation fails, if any.
  datatype Fault = NoFault | CopyFails | RenameFails | TruncateFails

  function Rotated(c: Config, f: Files, fault: Fault): Files {
    if |f.live| < c.limit then f
    else
      match fault
      case CopyFails => f.(staging := None)
      case RenameFails => f.(staging := None)
      case TruncateFails => f.(previous := Some(f.live), staging := None)
      case NoFault => Files(Note(c, |f.live|) + "\n", Some(f.live), None)
  }

  function Append(c: Config, f: Files, line: string, fault: Fault): Files {
    var g := Rotated(c, f, fault);
    g.(live := g.live + line + "\n")
  }

  class LogDirectory {
    var live: string
    var previous: Option<string>
    var staging: Option<string>

    function Value(): Files
      reads this
    {
      Files(live, previous, staging)
    }

    // The caller holds the lock. The note the fresh generation opens with, if there is one.
    method RotateIfFull(c: Config, fault: Fault) returns (note: Option<string>)
      modifies this
      ensures note.Some? <==> old(|live|) >= c.limit && fault == NoFault
      ensures note.Some? ==> note.value == Note(c, old(|live|)) && live == "" && previous == Some(old(live))
      ensures note.None? ==> live == old(live)
      ensures previous == Rotated(c, old(Value()), fault).previous
      ensures staging == Rotated(c, old(Value()), fault).staging
    {
      var size := |live|;
      if size < c.limit { return None; }
      if fault == CopyFails {
        staging := None;
        return None;
      }
      staging := Some(live);
      if fault == RenameFails {
        staging := None;
        return None;
      }
      previous, staging := staging, None;
      if fault == TruncateFails { return None; }
      live := "";
      return Some(Note(c, size));
    }

    method AppendEntryBounded(c: Config, line: string, fault: Fault)
      modifies this
      ensures Value() == Append(c, old(Value()), line, fault)
    {
      var note := RotateIfFull(c, fault);
      if note.Some? { live := live + (note.value + "\n"); }
      assert live == Rotated(c, old(Value()), fault).live;
      live := live + line + "\n";
    }
  }

  // ---- Every interleaving of writers and crashes ----

  datatype Phase = Free | Locked | Copying | Copied | Renamed | Truncated | Writing | Done

  // `writer` holds the lock outside `Free`, to append `line`; `size` is what it found.
  datatype State = State(files: Files, phase: Phase, writer: nat, line: string, size: nat)

  datatype Event =
    | Lock(writer: nat, line: string)
    | Check(writer: nat)
    | CopyPart(writer: nat, n: nat)
    | Copy(writer: nat)
    | CopyFault(writer: nat)
    | Rename(writer: nat)
    | RenameFault(writer: nat)
    | Truncate(writer: nat)
    | TruncateFault(writer: nat)
    | WriteNote(writer: nat)
    | WriteLine(writer: nat)
    | Unlock(writer: nat)
    | Crash(writer: nat)

  predicate Enabled(s: State, e: Event) {
    if e.Lock? then s.phase == Free
    else
      && s.phase != Free && e.writer == s.writer
      && match e
         case Check(_) => s.phase == Locked
         case CopyPart(_, n) => s.phase == Copying && n <= |s.files.live|
         case Copy(_) => s.phase == Copying
         case CopyFault(_) => s.phase == Copying
         case Rename(_) => s.phase == Copied
         case RenameFault(_) => s.phase == Copied
         case Truncate(_) => s.phase == Renamed
         case TruncateFault(_) => s.phase == Renamed
         case WriteNote(_) => s.phase == Truncated
         case WriteLine(_) => s.phase == Writing
         case Unlock(_) => s.phase == Done
         case _ => true
  }

  // What a step appends to the live log.
  function Adds(c: Config, s: State, e: Event): string {
    match e
    case WriteNote(_) => Note(c, s.size) + "\n"
    case WriteLine(_) => s.line + "\n"
    case _ => ""
  }

  function Next(c: Config, s: State, e: Event): State {
    var f := s.files;
    match e
    case Lock(w, line) => State(f, Locked, w, line, s.size)
    case Check(_) => s.(size := |f.live|, phase := if |f.live| < c.limit then Writing else Copying)
    case CopyPart(_, n) => if n <= |f.live| then s.(files := f.(staging := Some(f.live[..n]))) else s
    case Copy(_) => s.(files := f.(staging := Some(f.live)), phase := Copied)
    case CopyFault(_) => s.(files := f.(staging := None), phase := Writing)
    case Rename(_) => s.(files := f.(previous := f.staging, staging := None), phase := Renamed)
    case RenameFault(_) => s.(files := f.(staging := None), phase := Writing)
    case Truncate(_) => s.(files := f.(live := ""), phase := Truncated)
    case TruncateFault(_) => s.(phase := Writing)
    case WriteNote(_) => s.(files := f.(live := f.live + Adds(c, s, e)), phase := Writing)
    case WriteLine(_) => s.(files := f.(live := f.live + Adds(c, s, e)), phase := Done)
    case Unlock(_) => s.(phase := Free)
    case Crash(_) => s.(phase := Free)
  }

  function Run(c: Config, s0: State, events: seq<Event>): State {
    if events == [] then s0
    else Next(c, Run(c, s0, events[..|events| - 1]), events[|events| - 1])
  }

  predicate Possible(c: Config, s0: State, events: seq<Event>) {
    events == [] ||
    (Possible(c, s0, events[..|events| - 1])
     && Enabled(Run(c, s0, events[..|events| - 1]), events[|events| - 1]))
  }

  // A log nobody has rotated yet, with whatever is in it.
  predicate Fresh(s: State) { s.phase == Free && s.files.previous == None }

  predicate Inv(c: Config, s: State) {
    && (s.phase == Copying ==> |s.files.live| >= c.limit)
    && (s.phase == Copied ==> s.files.staging == Some(s.files.live) && |s.files.live| >= c.limit)
    && (s.phase == Renamed ==> s.files.previous == Some(s.files.live))
    && (s.phase == Truncated ==> s.files.live == "")
    && (s.files.previous.Some? ==> |s.files.previous.value| >= c.limit)
  }

  lemma InvStep(c: Config, s: State, e: Event)
    requires Inv(c, s) && Enabled(s, e)
    ensures Inv(c, Next(c, s, e))
  {
  }

  lemma {:induction false} InvHolds(c: Config, s0: State, events: seq<Event>)
    requires Fresh(s0) && Possible(c, s0, events)
    ensures Inv(c, Run(c, s0, events))
    decreases |events|
  {
    if events != [] {
      InvHolds(c, s0, events[..|events| - 1]);
      InvStep(c, Run(c, s0, events[..|events| - 1]), events[|events| - 1]);
    }
  }

  // At every step the live log only grows, or is emptied with a complete copy of it in `.1`.
  lemma LeavesOnlyBehindACopy(c: Config, s0: State, events: seq<Event>, e: Event)
    requires Fresh(s0) && Possible(c, s0, events) && Enabled(Run(c, s0, events), e)
    ensures
      var f, g := Run(c, s0, events).files, Next(c, Run(c, s0, events), e).files;
      f.live <= g.live || (g.live == "" && g.previous == Some(f.live))
  {
    InvHolds(c, s0, events);
  }

  // The live log held exactly `text` at some moment of the run.
  ghost predicate WasLive(c: Config, s0: State, events: seq<Event>, text: string) {
    exists i :: 0 <= i <= |events| && Run(c, s0, events[..i]).files.live == text
  }

  lemma WasLiveLater(c: Config, s0: State, events: seq<Event>, e: Event, text: string)
    requires WasLive(c, s0, events, text)
    ensures WasLive(c, s0, events + [e], text)
  {
    var i :| 0 <= i <= |events| && Run(c, s0, events[..i]).files.live == text;
    assert (events + [e])[..i] == events[..i];
  }

  // `.1` changes in one way only: to a full live log, whole.
  lemma PreviousStep(c: Config, s: State, e: Event)
    requires Inv(c, s) && Enabled(s, e)
    ensures
      var previous := Next(c, s, e).files.previous;
      previous == s.files.previous || (previous == Some(s.files.live) && |s.files.live| >= c.limit)
  {
  }

  // `.1` is never torn: it is absent, or a complete live log of some earlier moment, full.
  lemma {:induction false} PreviousIsComplete(c: Config, s0: State, events: seq<Event>)
    requires Fresh(s0) && Possible(c, s0, events)
    ensures
      var previous := Run(c, s0, events).files.previous;
      previous.Some? ==> |previous.value| >= c.limit && WasLive(c, s0, events, previous.value)
    decreases |events|
  {
    if events != [] {
      var rest, e := events[..|events| - 1], events[|events| - 1];
      InvHolds(c, s0, rest);
      PreviousStep(c, Run(c, s0, rest), e);
      PreviousIsComplete(c, s0, rest);
      var before := Run(c, s0, rest).files;
      assert rest[..|rest|] == rest && events == rest + [e];
      assert WasLive(c, s0, rest, before.live);
      WasLiveLater(c, s0, rest, e, before.live);
      if before.previous.Some? { WasLiveLater(c, s0, rest, e, before.previous.value); }
    }
  }

  // Everything ever appended, in order.
  function Appended(c: Config, s0: State, events: seq<Event>): string {
    if events == [] then ""
    else
      var rest := events[..|events| - 1];
      Appended(c, s0, rest) + Adds(c, Run(c, s0, rest), events[|events| - 1])
  }

  // Everything truncated away, in order.
  function Retired(c: Config, s0: State, events: seq<Event>): string {
    if events == [] then ""
    else
      var rest := events[..|events| - 1];
      Retired(c, s0, rest) + if events[|events| - 1].Truncate? then Run(c, s0, rest).files.live else ""
  }

  predicate EndsWith(s: string, tail: string) { |tail| <= |s| && s[|s| - |tail|..] == tail }

  // What was written is what was retired followed by the live log. And `.1` holds the last
  // thing retired, or else a copy of the start of the live log, which still has it all.
  predicate Conserved(start: string, appended: string, retired: string, f: Files) {
    && start + appended == retired + f.live
    && (f.previous == None ==> retired == "")
    && (f.previous.Some? ==> f.previous.value <= f.live || EndsWith(retired, f.previous.value))
  }

  lemma ConservedGrow(start: string, appended: string, retired: string, f: Files, more: string)
    requires Conserved(start, appended, retired, f)
    ensures Conserved(start, appended + more, retired, f.(live := f.live + more))
  {
    assert start + (appended + more) == (start + appended) + more == retired + (f.live + more);
  }

  lemma ConservedRetire(start: string, appended: string, retired: string, f: Files)
    requires Conserved(start, appended, retired, f) && f.previous == Some(f.live)
    ensures Conserved(start, appended, retired + f.live, f.(live := ""))
  {
    assert retired + f.live + "" == retired + f.live;
  }

  lemma ConservedStep(c: Config, s: State, e: Event, start: string, appended: string, retired: string)
    requires Inv(c, s) && Enabled(s, e) && Conserved(start, appended, retired, s.files)
    ensures Conserved(start, appended + Adds(c, s, e),
                      retired + if e.Truncate? then s.files.live else "", Next(c, s, e).files)
  {
    var more := Adds(c, s, e);
    assert appended + "" == appended && retired + "" == retired;
    if e.Truncate? {
      ConservedRetire(start, appended, retired, s.files);
    } else if e.WriteNote? || e.WriteLine? {
      ConservedGrow(start, appended, retired, s.files, more);
    } else {
      assert more == "";
      assert Next(c, s, e).files.live == s.files.live;
    }
  }

  // Conservation, over every run. A writer that dies between its rename and its truncate (or
  // cannot truncate) leaves `.1` a duplicate of what the live log still holds; nothing leaves
  // the live log any other way than into `.1`.
  lemma {:induction false} NothingIsLost(c: Config, s0: State, events: seq<Event>)
    requires Fresh(s0) && Possible(c, s0, events)
    ensures Conserved(s0.files.live, Appended(c, s0, events), Retired(c, s0, events), Run(c, s0, events).files)
    decreases |events|
  {
    if events == [] {
      assert s0.files.live + "" == "" + s0.files.live;
    } else {
      var rest, e := events[..|events| - 1], events[|events| - 1];
      NothingIsLost(c, s0, rest);
      InvHolds(c, s0, rest);
      ConservedStep(c, Run(c, s0, rest), e, s0.files.live, Appended(c, s0, rest), Retired(c, s0, rest));
    }
  }

  // No rotation failed outright; dying in the middle of one is allowed.
  predicate RotationsSucceed(events: seq<Event>) {
    forall e :: e in events ==> !e.CopyFault? && !e.RenameFault? && !e.TruncateFault?
  }

  // `room` is enough for any note and any line appended, with their newlines.
  predicate RecordsFit(c: Config, events: seq<Event>, room: nat) {
    forall e :: e in events && e.Lock? ==>
                  forall size :: 0 <= size < c.limit + room ==> |Note(c, size)| + |e.line| + 2 <= room
  }

  predicate Bounded(c: Config, s: State, room: nat) {
    && |s.files.live| < c.limit + room
    && (s.phase == Copying || s.phase == Copied || s.phase == Renamed || s.phase == Truncated ==> s.size < c.limit + room)
    && (s.phase == Writing ==> |s.files.live| + |s.line| + 1 < c.limit + room)
    && (s.phase != Free ==> forall size :: 0 <= size < c.limit + room ==> |Note(c, size)| + |s.line| + 2 <= room)
  }

  // While rotations succeed the log stays below the limit plus one record, crashes included.
  lemma {:induction false} StaysBounded(c: Config, s0: State, events: seq<Event>, room: nat)
    requires Fresh(s0) && Possible(c, s0, events) && c.limit > 0
    requires RotationsSucceed(events) && RecordsFit(c, events, room)
    requires |s0.files.live| < c.limit + room
    ensures |Run(c, s0, events).files.live| < c.limit + room
    ensures Bounded(c, Run(c, s0, events), room)
    decreases |events|
  {
    if events != [] {
      var rest, e := events[..|events| - 1], events[|events| - 1];
      assert events == rest + [e];
      StaysBounded(c, s0, rest, room);
      InvHolds(c, s0, rest);
      BoundedStep(c, Run(c, s0, rest), e, room);
    }
  }

  lemma BoundedStep(c: Config, s: State, e: Event, room: nat)
    requires Bounded(c, s, room) && Inv(c, s) && Enabled(s, e) && c.limit > 0
    requires RotationsSucceed([e]) && RecordsFit(c, [e], room)
    ensures Bounded(c, Next(c, s, e), room)
  {
    assert e in [e];
    if e.Check? {
      var size := |s.files.live|;
      assert |Note(c, size)| + |s.line| + 2 <= room;
    }
    if e.WriteNote? { assert |Note(c, s.size)| + |s.line| + 2 <= room; }
  }

  // One writer left alone, from finding the log full to its line, with the given call failing.
  function RotateAlone(c: Config, s: State, w: nat, fault: Fault): State {
    if |s.files.live| < c.limit then s
    else
      match fault
      case CopyFails => Next(c, s, CopyFault(w))
      case RenameFails => Next(c, Next(c, s, Copy(w)), RenameFault(w))
      case TruncateFails => Next(c, Next(c, Next(c, s, Copy(w)), Rename(w)), TruncateFault(w))
      case NoFault => Next(c, Next(c, Next(c, Next(c, s, Copy(w)), Rename(w)), Truncate(w)), WriteNote(w))
  }

  // Left alone from lock to unlock, whichever call fails, a writer does exactly what
  // `append_entry_bounded` does.
  lemma AloneIsAppend(c: Config, s0: State, w: nat, line: string, fault: Fault)
    requires s0.phase == Free
    ensures
      var s := RotateAlone(c, Next(c, Next(c, s0, Lock(w, line)), Check(w)), w, fault);
      && s.phase == Writing
      && Next(c, s, WriteLine(w)).files == Append(c, s0.files, line, fault)
  {
    AloneIsRotated(c, s0, w, line, fault);
    var live := Rotated(c, s0.files, fault).live;
    assert live + (line + "\n") == live + line + "\n";
  }

  lemma AloneIsRotated(c: Config, s0: State, w: nat, line: string, fault: Fault)
    requires s0.phase == Free
    ensures
      var s := RotateAlone(c, Next(c, Next(c, s0, Lock(w, line)), Check(w)), w, fault);
      s == State(Rotated(c, s0.files, fault), Writing, w, line, |s0.files.live|)
  {
    var note := Note(c, |s0.files.live|) + "\n";
    assert "" + note == note;
  }
}
