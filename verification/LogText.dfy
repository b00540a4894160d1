/** One event, one printable line (diagnostics.rs), and reading the log back (logs.rs). */
module LogText {
  import opened Wrappers

  const ESC: char := 27 as char
  const BEL: char := 7 as char

  // Unicode category Cc: the C0 range, DEL, and the C1 range.
  predicate IsControl(c: char) { c as int < 0x20 || 0x7f <= c as int <= 0x9f }

  // In numbers: neither below space, nor from DEL to the end of the C1 range.
  predicate Printable(s: string) { forall k :: 0 <= k < |s| ==> 0x20 <= s[k] as int < 0x7f || 0xa0 <= s[k] as int }

  // ---- The automaton: sections 5.4 and 8.3.89 of ECMA-48 ----

  datatype Mode = Ground | Escape | Csi | Osc | OscEscape

  // A control sequence ends at the first byte of this range.
  predicate IsFinal(c: char) { 0x40 <= c as int <= 0x7e }

  function FeedGround(c: char): (Mode, string) {
    if c == ESC then (Escape, "") else (Ground, if IsControl(c) then " " else [c])
  }

  function Feed(m: Mode, c: char): (Mode, string) {
    match m
    case Ground => FeedGround(c)
    case Escape => (if c == '[' then Csi else if c == ']' then Osc else Ground, "")
    case Csi => (if IsFinal(c) then Ground else Csi, "")
    case Osc => (if c == BEL then Ground else if c == ESC then OscEscape else Osc, "")
    case OscEscape => if c == '\\' then (Ground, "") else FeedGround(c)
  }

  function Scan(m: Mode, text: string): string
    decreases |text|
  {
    if text == "" then "" else Feed(m, text[0]).1 + Scan(Feed(m, text[0]).0, text[1..])
  }

  lemma ScanAt(m: Mode, text: string, i: nat)
    requires i < |text|
    ensures Scan(m, text[i..]) == Feed(m, text[i]).1 + Scan(Feed(m, text[i]).0, text[i + 1..])
  {
    assert text[i..][0] == text[i] && text[i..][1..] == text[i + 1..];
  }

  lemma ScanCons(m: Mode, c: char, rest: string)
    ensures Scan(m, [c] + rest) == Feed(m, c).1 + Scan(Feed(m, c).0, rest)
  {
    assert ([c] + rest)[0] == c && ([c] + rest)[1..] == rest;
  }

  // What the automaton shows of a whole event.
  function OneLineOf(event: string): string { Scan(Ground, event) }

  // `ESC [ <parameters> <final byte>`, from just after the bracket.
  method SkipControlSequence(text: string, i: nat) returns (j: nat)
    requires i <= |text|
    ensures i <= j <= |text| && Scan(Ground, text[j..]) == Scan(Csi, text[i..])
  {
    j := i;
    while j < |text|
      invariant i <= j <= |text|
      invariant Scan(Csi, text[j..]) == Scan(Csi, text[i..])
    {
      ScanAt(Csi, text, j);
      j := j + 1;
      if IsFinal(text[j - 1]) { return; }
    }
    assert text[j..] == "";
  }

  // `ESC ] <text> <BEL | ST>`, from just after the bracket. A `\` that is not there is not
  // consumed.
  method SkipSystemCommand(text: string, i: nat) returns (j: nat)
    requires i <= |text|
    ensures i <= j <= |text| && Scan(Ground, text[j..]) == Scan(Osc, text[i..])
  {
    j := i;
    while j < |text|
      invariant i <= j <= |text|
      invariant Scan(Osc, text[j..]) == Scan(Osc, text[i..])
    {
      var c := text[j];
      ScanAt(Osc, text, j);
      j := j + 1;
      if c == BEL { return; }
      if c == ESC {
        if j < |text| {
          ScanAt(OscEscape, text, j);
          ScanAt(Ground, text, j);
          if text[j] == '\\' { j := j + 1; }
        }
        return;
      }
    }
    assert text[j..] == "";
  }

  // Consumes the rest of the sequence whose ESC stands just before `i`.
  method SkipEscapeSequence(text: string, i: nat) returns (j: nat)
    requires i <= |text|
    ensures i <= j <= |text|
    ensures Scan(Ground, text[j..]) == Scan(Escape, text[i..])
  {
    if i == |text| { return i; }
    ScanAt(Escape, text, i);
    match text[i]
    case '[' => j := SkipControlSequence(text, i + 1);
    case ']' => j := SkipSystemCommand(text, i + 1);
    case _ => j := i + 1;
  }

  method OneLine(event: string) returns (out: string)
    ensures out == OneLineOf(event)
  {
    out := "";
    var i := 0;
    assert event[0..] == event;
    while i < |event|
      invariant i <= |event|
      invariant out + Scan(Ground, event[i..]) == OneLineOf(event)
    {
      var c := event[i];
      ScanAt(Ground, event, i);
      ghost var rest := Scan(FeedGround(c).0, event[i + 1..]);
      i := i + 1;
      if c == ESC {
        assert "" + rest == rest;
        i := SkipEscapeSequence(event, i);
      } else {
        var shown := if IsControl(c) then " " else [c];
        assert out + (shown + rest) == out + shown + rest;
        out := out + shown;
      }
    }
  }

  // Nothing but printable text comes out, whatever goes in.
  lemma {:induction false} ScanIsPrintable(m: Mode, text: string)
    ensures Printable(Scan(m, text))
    decreases |text|
  {
    if text != "" { ScanIsPrintable(Feed(m, text[0]).0, text[1..]); }
  }

  // Printable text is left exactly as it is.
  lemma {:induction false} PrintableIsKept(text: string)
    requires Printable(text)
    ensures OneLineOf(text) == text
  {
    if text != "" {
      assert !IsControl(text[0]) && IsControl(ESC);
      assert forall k :: 0 <= k < |text[1..]| ==> text[1..][k] == text[k + 1];
      PrintableIsKept(text[1..]);
      assert text == [text[0]] + text[1..];
    }
  }

  // So a second pass, as the reader makes, changes nothing.
  lemma OneLineIsIdempotent(event: string)
    ensures OneLineOf(OneLineOf(event)) == OneLineOf(event)
  {
    ScanIsPrintable(Ground, event);
    PrintableIsKept(OneLineOf(event));
  }

  // ---- What the sequences mean ----

  // A terminal's text: characters, control sequences, operating system commands ended by BEL
  // or by ST, and the two-character escapes.
  datatype Piece =
    | Plain(c: char)
    | ControlSequence(parameters: string, final: char)
    | SystemCommand(text: string, byBell: bool)
    | Pair(c: char)

  predicate WellFormed(p: Piece) {
    match p
    case Plain(c) => c as int != 0x1b
    case ControlSequence(parameters, final) =>
      && 0x40 <= final as int <= 0x7e
      && forall k :: 0 <= k < |parameters| ==> !(0x40 <= parameters[k] as int <= 0x7e)
    case SystemCommand(text, _) => forall k :: 0 <= k < |text| ==> text[k] as int != 0x07 && text[k] as int != 0x1b
    case Pair(c) => c != '[' && c != ']'
  }

  function Print(p: Piece): string {
    match p
    case Plain(c) => [c]
    case ControlSequence(parameters, final) => [0x1b as char, '['] + parameters + [final]
    case SystemCommand(text, byBell) =>
      [0x1b as char, ']'] + text + if byBell then [0x07 as char] else [0x1b as char, '\\']
    case Pair(c) => [0x1b as char, c]
  }

  // Sequences are dropped whole; a control character keeps its words apart.
  function Show(p: Piece): string {
    match p
    case Plain(c) => if c as int < 0x20 || 0x7f <= c as int < 0xa0 then " " else [c]
    case _ => ""
  }

  function PrintAll(pieces: seq<Piece>): string {
    if pieces == [] then "" else Print(pieces[0]) + PrintAll(pieces[1..])
  }

  function ShowAll(pieces: seq<Piece>): string {
    if pieces == [] then "" else Show(pieces[0]) + ShowAll(pieces[1..])
  }

  lemma {:induction false} CsiIsSkipped(parameters: string, final: char, rest: string)
    requires WellFormed(ControlSequence(parameters, final))
    ensures Scan(Csi, parameters + [final] + rest) == Scan(Ground, rest)
    decreases |parameters|
  {
    var text := parameters + [final] + rest;
    if parameters == "" {
      assert text[0] == final && text[1..] == rest;
    } else {
      assert text[0] == parameters[0] && text[1..] == parameters[1..] + [final] + rest;
      CsiIsSkipped(parameters[1..], final, rest);
    }
  }

  lemma {:induction false} OscIsSkipped(command: string, byBell: bool, rest: string)
    requires WellFormed(SystemCommand(command, byBell))
    ensures Scan(Osc, command + (if byBell then [BEL] else [ESC, '\\']) + rest) == Scan(Ground, rest)
    decreases |command|
  {
    var end := if byBell then [BEL] else [ESC, '\\'];
    var text := command + end + rest;
    if command == "" {
      assert text[0] == end[0] && text[1..] == end[1..] + rest;
      if !byBell {
        assert text[1..][0] == '\\' && text[1..][1..] == rest;
        assert Scan(OscEscape, text[1..]) == "" + Scan(Ground, rest);
      } else {
        assert text[1..] == rest;
      }
    } else {
      assert text[0] == command[0] && text[1..] == command[1..] + end + rest;
      OscIsSkipped(command[1..], byBell, rest);
    }
  }

  lemma EscapeThen(c: char, body: string)
    ensures Scan(Ground, [ESC, c] + body) == Scan(Feed(Escape, c).0, body)
  {
    assert [ESC, c] + body == [ESC] + ([c] + body);
    ScanCons(Ground, ESC, [c] + body);
    ScanCons(Escape, c, body);
  }

  lemma ControlSequenceShows(parameters: string, final: char, rest: string)
    requires WellFormed(ControlSequence(parameters, final))
    ensures Scan(Ground, Print(ControlSequence(parameters, final)) + rest) == Scan(Ground, rest)
  {
    assert Print(ControlSequence(parameters, final)) + rest == [ESC, '['] + (parameters + [final] + rest);
    EscapeThen('[', parameters + [final] + rest);
    CsiIsSkipped(parameters, final, rest);
  }

  lemma SystemCommandShows(command: string, byBell: bool, rest: string)
    requires WellFormed(SystemCommand(command, byBell))
    ensures Scan(Ground, Print(SystemCommand(command, byBell)) + rest) == Scan(Ground, rest)
  {
    var end := if byBell then [BEL] else [ESC, '\\'];
    assert Print(SystemCommand(command, byBell)) + rest == [ESC, ']'] + (command + end + rest);
    EscapeThen(']', command + end + rest);
    OscIsSkipped(command, byBell, rest);
  }

  lemma PieceIsShown(p: Piece, rest: string)
    requires WellFormed(p)
    ensures Scan(Ground, Print(p) + rest) == Show(p) + Scan(Ground, rest)
  {
    assert "" + Scan(Ground, rest) == Scan(Ground, rest);
    match p
    case Plain(c) => ScanCons(Ground, c, rest);
    case ControlSequence(parameters, final) => ControlSequenceShows(parameters, final, rest);
    case SystemCommand(command, byBell) => SystemCommandShows(command, byBell, rest);
    case Pair(c) => EscapeThen(c, rest);
  }

  // Of any well-formed terminal text, exactly the characters show, with no debris left.
  lemma {:induction false} SequencesAreDropped(pieces: seq<Piece>)
    requires forall k :: 0 <= k < |pieces| ==> WellFormed(pieces[k])
    ensures OneLineOf(PrintAll(pieces)) == ShowAll(pieces)
  {
    if pieces != [] {
      SequencesAreDropped(pieces[1..]);
      PieceIsShown(pieces[0], PrintAll(pieces[1..]));
    }
  }

  // Text that breaks off inside a sequence shows nothing of it, and a command broken off by an
  // escape ends there: what follows shows as it would alone.
  lemma UnfinishedShowsNothing(parameters: string)
    requires forall k :: 0 <= k < |parameters| ==> !(0x40 <= parameters[k] as int <= 0x7e)
    ensures OneLineOf([0x1b as char, '['] + parameters) == ""
  {
    EscapeThen('[', parameters);
    CsiUnfinished(parameters);
  }

  lemma {:induction false} CsiUnfinished(parameters: string)
    requires forall k :: 0 <= k < |parameters| ==> !(0x40 <= parameters[k] as int <= 0x7e)
    ensures Scan(Csi, parameters) == ""
  {
    if parameters != "" {
      assert forall k :: 0 <= k < |parameters[1..]| ==> parameters[1..][k] == parameters[k + 1];
      CsiUnfinished(parameters[1..]);
    }
  }

  lemma BrokenCommandEnds(command: string, c: char, rest: string)
    requires forall k :: 0 <= k < |command| ==> command[k] as int != 0x07 && command[k] as int != 0x1b
    requires c != '\\'
    ensures OneLineOf([0x1b as char, ']'] + (command + ([0x1b as char] + ([c] + rest)))) == OneLineOf([c] + rest)
  {
    EscapeThen(']', command + ([0x1b as char] + ([c] + rest)));
    OscBroken(command, c, rest);
  }

  lemma {:induction false} OscBroken(command: string, c: char, rest: string)
    requires forall k :: 0 <= k < |command| ==> command[k] as int != 0x07 && command[k] as int != 0x1b
    requires c != '\\'
    ensures Scan(Osc, command + ([0x1b as char] + ([c] + rest))) == Scan(Ground, [c] + rest)
    decreases |command|
  {
    var text := command + ([0x1b as char] + ([c] + rest));
    if command == "" {
      assert text == [ESC] + ([c] + rest);
      ScanCons(Osc, ESC, [c] + rest);
      ScanCons(OscEscape, c, rest);
      ScanCons(Ground, c, rest);
    } else {
      assert text == [command[0]] + (command[1..] + ([0x1b as char] + ([c] + rest)));
      ScanCons(Osc, command[0], command[1..] + ([0x1b as char] + ([c] + rest)));
      assert forall k :: 0 <= k < |command[1..]| ==> command[1..][k] == command[k + 1];
      OscBroken(command[1..], c, rest);
    }
  }

  // A trailing escape shows nothing.
  lemma TrailingEscapeShowsNothing(text: string)
    requires Printable(text)
    ensures OneLineOf(text + [0x1b as char]) == text
  {
    PrintableThen(text, [0x1b as char]);
    assert Scan(Ground, [ESC]) == "" by { ScanCons(Ground, ESC, ""); assert [ESC] + "" == [ESC]; }
    assert text + "" == text;
  }

  lemma {:induction false} PrintableThen(text: string, rest: string)
    requires Printable(text)
    ensures OneLineOf(text + rest) == text + OneLineOf(rest)
    decreases |text|
  {
    if text == "" {
      assert text + rest == rest && text + OneLineOf(rest) == OneLineOf(rest);
    } else {
      assert !IsControl(text[0]) && IsControl(ESC);
      assert forall k :: 0 <= k < |text[1..]| ==> text[1..][k] == text[k + 1];
      assert text + rest == [text[0]] + (text[1..] + rest);
      ScanCons(Ground, text[0], text[1..] + rest);
      PrintableThen(text[1..], rest);
      assert [text[0]] + (text[1..] + OneLineOf(rest)) == text + OneLineOf(rest);
    }
  }

  // ---- The log, written and read ----

  function FormatEntry(at: string, event: string): string { at + "  " + OneLineOf(event) }

  function Recorded(entries: seq<string>): string {
    if entries == [] then "" else entries[0] + "\n" + Recorded(entries[1..])
  }

  function NewlineAt(s: string): (k: nat)
    requires '\n' in s
    ensures k < |s| && s[k] == '\n' && '\n' !in s[..k]
  {
    if s[0] == '\n' then 0 else 1 + NewlineAt(s[1..])
  }

  lemma {:induction false} NewlineIsAt(s: string, k: nat)
    requires k < |s| && s[k] == '\n' && '\n' !in s[..k]
    ensures '\n' in s && NewlineAt(s) == k
  {
    if k > 0 {
      assert s[0] == s[..k][0];
      assert s[1..][..k - 1] == s[..k][1..];
      NewlineIsAt(s[1..], k - 1);
    }
  }

  function Chomp(line: string): string {
    if line != "" && line[|line| - 1] == '\r' then line[..|line| - 1] else line
  }

  // Rust's `lines`.
  function Lines(s: string): seq<string>
    decreases |s|
  {
    if s == "" then []
    else if '\n' !in s then [s]
    else [Chomp(s[..NewlineAt(s)])] + Lines(s[NewlineAt(s) + 1..])
  }

  lemma {:induction false} LinesOfRecorded(entries: seq<string>)
    requires forall k :: 0 <= k < |entries| ==> Printable(entries[k])
    ensures Lines(Recorded(entries)) == entries
  {
    if entries != [] {
      var first, rest := entries[0], Recorded(entries[1..]);
      var all := Recorded(entries);
      assert all == first + "\n" + rest;
      assert Printable(first) && IsControl('\n') && IsControl('\r');
      assert all[|first|] == '\n';
      var k := |first|;
      assert all[..k] == first && all[k + 1..] == rest;
      NewlineIsAt(all, k);
      LinesOfRecorded(entries[1..]);
      assert entries == [first] + entries[1..];
    }
  }

  // `--tail N`, or everything.
  function Tail<T>(entries: seq<T>, tail: Option<nat>): seq<T> {
    match tail
    case None => entries
    case Some(n) => if n >= |entries| then entries else entries[|entries| - n..]
  }

  function ShowLines(entries: seq<string>): seq<string> {
    if entries == [] then [] else ShowLines(entries[..|entries| - 1]) + [OneLineOf(entries[|entries| - 1])]
  }

  // The entries `quizdom logs` prints, each through `one_line` once more: `--path` may name a
  // file this crate never wrote.
  method RenderLogs(contents: string, tail: Option<nat>) returns (shown: seq<string>)
    ensures shown == ShowLines(Tail(Lines(contents), tail))
    ensures forall k :: 0 <= k < |shown| ==> Printable(shown[k])
  {
    var entries := Lines(contents);
    shown := [];
    if entries == [] { return; }
    var chosen := Tail(entries, tail);
    for i := 0 to |chosen|
      invariant shown == ShowLines(chosen[..i])
      invariant forall k :: 0 <= k < |shown| ==> Printable(shown[k])
    {
      assert chosen[..i + 1][..i] == chosen[..i];
      var line := OneLine(chosen[i]);
      ScanIsPrintable(Ground, chosen[i]);
      shown := shown + [line];
    }
    assert chosen[..|chosen|] == chosen;
  }

  datatype Event = Event(at: string, text: string)

  function Entries(events: seq<Event>): (r: seq<string>)
    ensures |r| == |events|
    ensures forall k :: 0 <= k < |r| ==> r[k] == FormatEntry(events[k].at, events[k].text)
  {
    seq(|events|, k requires 0 <= k < |events| => FormatEntry(events[k].at, events[k].text))
  }

  lemma {:induction false} PrintableLinesShow(entries: seq<string>)
    requires forall k :: 0 <= k < |entries| ==> Printable(entries[k])
    ensures ShowLines(entries) == entries
    decreases |entries|
  {
    if entries != [] {
      PrintableLinesShow(entries[..|entries| - 1]);
      PrintableIsKept(entries[|entries| - 1]);
    }
  }

  // An entry is the time, two spaces, and the event: all of it if it is printable, and otherwise
  // what shows of it.
  lemma EntrySays(at: string, text: string)
    ensures FormatEntry(at, text)[..|at|] == at && FormatEntry(at, text)[|at|..] == "  " + OneLineOf(text)
    ensures Printable(text) ==> FormatEntry(at, text) == at + "  " + text
  {
    if Printable(text) { PrintableIsKept(text); }
  }

  // Lines end at a newline, with or without a carriage return before it; a last one may lack it.
  lemma LinesEnd(line: string, rest: string)
    requires '\n' !in line && (line == "" || line[|line| - 1] != '\r')
    ensures Lines(line + "\n" + rest) == [line] + Lines(rest)
    ensures Lines(line + "\r\n" + rest) == [line] + Lines(rest)
    ensures line != "" ==> Lines(line) == [line]
    ensures Lines("") == []
  {
    LineFeedEnds(line, rest);
    var returned := line + "\r";
    assert line + "\r\n" + rest == returned + "\n" + rest;
    assert returned[..|line|] == line;
    LineFeedEnds(returned, rest);
  }

  lemma LineFeedEnds(line: string, rest: string)
    requires '\n' !in line
    ensures Lines(line + "\n" + rest) == [Chomp(line)] + Lines(rest)
  {
    var text := line + "\n" + rest;
    assert text[..|line|] == line && text[|line| + 1..] == rest;
    NewlineIsAt(text, |line|);
  }

  // What was recorded is what is read back, entry for entry: of any events at all, the log
  // shows the last N, exactly as they were written.
  lemma RecordedIsReadBack(events: seq<Event>, tail: Option<nat>)
    requires forall k :: 0 <= k < |events| ==> Printable(events[k].at)
    ensures Lines(Recorded(Entries(events))) == Entries(events)
    ensures ShowLines(Tail(Lines(Recorded(Entries(events))), tail)) == Tail(Entries(events), tail)
    ensures forall k :: 0 <= k < |events| && Printable(events[k].text) ==>
                          Entries(events)[k] == events[k].at + "  " + events[k].text
    ensures Tail(Entries(events), tail) == Entries(events)[|events| - |Tail(Entries(events), tail)|..]
    ensures tail == None ==> |Tail(Entries(events), tail)| == |events|
    ensures tail.Some? ==> |Tail(Entries(events), tail)| == if tail.value < |events| then tail.value else |events|
  {
    var entries := Entries(events);
    forall k | 0 <= k < |entries| ensures Printable(entries[k]) {
      ScanIsPrintable(Ground, events[k].text);
    }
    forall k | 0 <= k < |events| && Printable(events[k].text) ensures entries[k] == events[k].at + "  " + events[k].text {
      EntrySays(events[k].at, events[k].text);
    }
    LinesOfRecorded(entries);
    PrintableLinesShow(Tail(entries, tail));
  }
}
