/** The quote scanner of markdown.rs: which stretches of an ordinary text run are quoted. */
module QuoteScanner {
  import opened Wrappers

  // A styled stretch of text: in the quote colour, or in the base style.
  datatype Span = Span(text: string, quoted: bool)

  // Unicode White_Space.
  predicate IsWhitespace(c: char) {
    var n := c as int;
    || 0x09 <= n <= 0x0d || n == 0x20 || n == 0x85 || n == 0xa0 || n == 0x1680
    || 0x2000 <= n <= 0x200a || n == 0x2028 || n == 0x2029 || n == 0x202f || n == 0x205f || n == 0x3000
  }

  function MatchingClose(c: char): Option<char> {
    match c
    case '"' => Some('"')
    case '\U{201C}' => Some('\U{201D}')
    case '\'' => Some('\'')
    case '\U{2018}' => Some('\U{2019}')
    case _ => None
  }

  predicate IsSingle(c: char) { c == '\'' || c == '\U{2018}' }

  predicate IsOpeningPunct(c: char) { c in {'(', '[', '{', ':', ',', '-'} }

  predicate IsClosingPunct(c: char) {
    c in {'.', ',', ';', ':', '!', '?', ')', ']', '}', '-', '\U{2014}', '\U{2013}'}
  }

  // Look-behind: a single quote after a letter is an apostrophe and opens nothing.
  predicate QuoteOpens(text: string, i: nat)
    requires i < |text|
  {
    !IsSingle(text[i]) || i == 0 || IsWhitespace(text[i - 1]) || IsOpeningPunct(text[i - 1])
  }

  // Position `i` legally opens a quoted span.
  predicate Opens(text: string, i: nat)
    requires i < |text|
  {
    MatchingClose(text[i]).Some? && QuoteOpens(text, i)
  }

  // Look-ahead: a single quote before a letter is an apostrophe and closes nothing.
  predicate Closes(text: string, open: char, j: nat)
    requires j < |text| && MatchingClose(open).Some?
  {
    && text[j] == MatchingClose(open).value
    && (IsSingle(open) ==> j + 1 == |text| || IsWhitespace(text[j + 1]) || IsClosingPunct(text[j + 1]))
  }

  predicate NoCloseIn(text: string, open: char, from: nat, to: nat)
    requires to <= |text| && MatchingClose(open).Some?
  {
    forall j :: from <= j < to ==> !Closes(text, open, j)
  }

  // A quoted span opened at `a` runs through its first legal closer, or to the end of the run.
  predicate QuotedUpTo(text: string, a: nat, b: nat)
    requires a < b <= |text| && Opens(text, a)
  {
    || (a + 1 < b && Closes(text, text[a], b - 1) && NoCloseIn(text, text[a], a + 1, b - 1))
    || (b == |text| && NoCloseIn(text, text[a], a + 1, b))
  }

  predicate NoOpenerIn(text: string, a: nat, b: nat)
    requires b <= |text|
  {
    forall i :: a <= i < b ==> !Opens(text, i)
  }

  // `s` is the right span for the stretch from `a` to `b`.
  predicate Good(text: string, s: Span, a: nat, b: nat) {
    && a < b <= |text| && s.text == text[a..b]
    && if s.quoted then Opens(text, a) && QuotedUpTo(text, a, b) else NoOpenerIn(text, a, b)
  }

  // The spans, in order, are right for the stretch from `a` to `b`, and no two plain ones touch.
  predicate Segments(text: string, spans: seq<Span>, a: nat, b: nat) {
    if spans == [] then a == b
    else
      && Good(text, spans[0], a, a + |spans[0].text|)
      && (|spans| > 1 ==> spans[0].quoted || spans[1].quoted)
      && Segments(text, spans[1..], a + |spans[0].text|, b)
  }

  // The declarative leftmost segmentation of a run.
  predicate IsSegmentation(text: string, spans: seq<Span>) {
    if text == "" then spans == [Span("", false)] else Segments(text, spans, 0, |text|)
  }

  lemma {:induction false} SegmentsAppend(text: string, spans: seq<Span>, s: Span, a: nat, m: nat, b: nat)
    requires Segments(text, spans, a, m) && Good(text, s, m, b)
    requires spans != [] ==> spans[|spans| - 1].quoted || s.quoted
    ensures Segments(text, spans + [s], a, b)
  {
    if spans == [] {
      assert (spans + [s])[1..] == [];
    } else {
      SegmentsAppend(text, spans[1..], s, a + |spans[0].text|, m, b);
      assert (spans + [s])[1..] == spans[1..] + [s];
    }
  }

  function Concat(spans: seq<Span>): string {
    if spans == [] then "" else spans[0].text + Concat(spans[1..])
  }

  // The spans give the text back, and none of them is empty.
  lemma {:induction false} SegmentsConcat(text: string, spans: seq<Span>, a: nat, b: nat)
    requires Segments(text, spans, a, b) && a <= |text|
    ensures a <= b <= |text| && Concat(spans) == text[a..b]
    ensures forall s :: s in spans ==> s.text != ""
  {
    if spans != [] {
      var m := a + |spans[0].text|;
      SegmentsConcat(text, spans[1..], m, b);
      assert text[a..b] == text[a..m] + text[m..b];
    }
  }

  lemma SegmentationConcat(text: string, spans: seq<Span>)
    requires IsSegmentation(text, spans)
    ensures Concat(spans) == text
    ensures text != "" ==> forall s :: s in spans ==> s.text != ""
  {
    if text == "" {
      assert spans[1..] == [];
    } else {
      SegmentsConcat(text, spans, 0, |text|);
      assert text[0..|text|] == text;
    }
  }

  // A plain span runs up to the next legal opener, or to the end.
  lemma PlainIsMaximal(text: string, spans: seq<Span>, a: nat, b: nat)
    requires Segments(text, spans, a, b) && spans != [] && !spans[0].quoted
    ensures
      var n := a + |spans[0].text|;
      n <= b <= |text| && (n == b || (n < |text| && Opens(text, n)))
  {
    var n := a + |spans[0].text|;
    SegmentsConcat(text, spans, a, b);
    SegmentsConcat(text, spans[1..], n, b);
    if |spans| > 1 { assert spans[1..][0] == spans[1]; }
  }

  // Of two right answers for the same stretch, the first spans agree.
  lemma FirstNoLonger(text: string, s: seq<Span>, t: seq<Span>, a: nat, b: nat)
    requires Segments(text, s, a, b) && Segments(text, t, a, b) && s != [] && t != []
    ensures |s[0].text| <= |t[0].text|
  {
    assert Good(text, s[0], a, a + |s[0].text|) && Good(text, t[0], a, a + |t[0].text|);
    if !t[0].quoted {
      PlainIsMaximal(text, t, a, b);
      PlainIsMaximal(text, s, a, b);
    }
  }

  lemma SameFirst(text: string, s: seq<Span>, t: seq<Span>, a: nat, b: nat)
    requires Segments(text, s, a, b) && Segments(text, t, a, b) && s != [] && t != []
    ensures s[0] == t[0] && a + |s[0].text| <= |text|
  {
    FirstNoLonger(text, s, t, a, b);
    FirstNoLonger(text, t, s, a, b);
    assert Good(text, s[0], a, a + |s[0].text|) && Good(text, t[0], a, a + |t[0].text|);
  }

  // An answer is empty exactly when the stretch is.
  lemma EmptyStretch(text: string, s: seq<Span>, a: nat, b: nat)
    requires Segments(text, s, a, b) && a <= |text|
    ensures s == [] <==> a == b
  {
    if s != [] {
      assert Good(text, s[0], a, a + |s[0].text|);
      SegmentsConcat(text, s[1..], a + |s[0].text|, b);
    }
  }

  // So there is exactly one segmentation of a run.
  lemma {:induction false} SegmentsUnique(text: string, s: seq<Span>, t: seq<Span>, a: nat, b: nat)
    requires Segments(text, s, a, b) && Segments(text, t, a, b) && a <= |text|
    ensures s == t
    decreases |s|
  {
    EmptyStretch(text, s, a, b);
    EmptyStretch(text, t, a, b);
    if a != b {
      SameFirst(text, s, t, a, b);
      SegmentsUnique(text, s[1..], t[1..], a + |s[0].text|, b);
      assert s == [s[0]] + s[1..] && t == [t[0]] + t[1..];
    }
  }

  lemma SegmentationUnique(text: string, s: seq<Span>, t: seq<Span>)
    requires IsSegmentation(text, s) && IsSegmentation(text, t)
    ensures s == t
  {
    if text != "" { SegmentsUnique(text, s, t, 0, |text|); }
  }

  // ---- What a reader of the text sees ----

  // Where the `k`th span starts.
  function Offset(spans: seq<Span>, k: nat): nat
    requires k <= |spans|
  {
    |Concat(spans[..k])|
  }

  lemma {:induction false} SegmentsAt(text: string, spans: seq<Span>, a: nat, b: nat, k: nat)
    requires Segments(text, spans, a, b) && k < |spans|
    ensures Good(text, spans[k], a + Offset(spans, k), a + Offset(spans, k) + |spans[k].text|)
    decreases k
  {
    if k == 0 {
      assert spans[..0] == [];
    } else {
      SegmentsAt(text, spans[1..], a + |spans[0].text|, b, k - 1);
      assert spans[..k] == [spans[0]] + spans[1..][..k - 1];
      assert spans[..k][1..] == spans[1..][..k - 1];
    }
  }

  lemma SpanAt(text: string, spans: seq<Span>, k: nat)
    requires IsSegmentation(text, spans) && text != "" && k < |spans|
    ensures Good(text, spans[k], Offset(spans, k), Offset(spans, k) + |spans[k].text|)
  {
    SegmentsAt(text, spans, 0, |text|, k);
  }

  // The white space characters of Unicode, one by one.
  lemma WhitespaceIs(c: char)
    ensures IsWhitespace(c) <==>
              c as int in {0x09, 0x0a, 0x0b, 0x0c, 0x0d, 0x20, 0x85, 0xa0, 0x1680, 0x2000, 0x2001, 0x2002, 0x2003, 0x2004,
                           0x2005, 0x2006, 0x2007, 0x2008, 0x2009, 0x200a, 0x2028, 0x2029, 0x202f, 0x205f, 0x3000}
  {
  }

  // A coloured span starts with one of the four opening quotes, and with a single one only at the
  // start of the run, after white space, or after one of six marks.
  lemma ColouredStarts(text: string, spans: seq<Span>, k: nat)
    requires IsSegmentation(text, spans) && k < |spans| && spans[k].quoted
    ensures
      var i := Offset(spans, k);
      && i < |text| && text[i] in {'"', '\'', '\U{201C}', '\U{2018}'}
      && (text[i] in {'\'', '\U{2018}'} ==>
            i == 0 || IsWhitespace(text[i - 1]) || text[i - 1] in {'(', '[', '{', ':', ',', '-'})
  {
    SpanAt(text, spans, k);
  }

  // And every quote that could start one does: outside coloured spans there is no double quote,
  // and no single one at the start, after white space, or after one of those marks.
  lemma PlainHasNoOpener(text: string, spans: seq<Span>, k: nat, i: nat)
    requires IsSegmentation(text, spans) && text != "" && k < |spans| && !spans[k].quoted
    requires Offset(spans, k) <= i < Offset(spans, k) + |spans[k].text|
    ensures i < |text| && text[i] != '"' && text[i] != '\U{201C}'
    ensures text[i] in {'\'', '\U{2018}'} ==>
              i > 0 && !IsWhitespace(text[i - 1]) && text[i - 1] !in {'(', '[', '{', ':', ',', '-'}
  {
    SpanAt(text, spans, k);
    assert !Opens(text, i);
  }

  // The quote that ends what `open` starts.
  lemma ColouredEnds(text: string, spans: seq<Span>, k: nat)
    requires IsSegmentation(text, spans) && k < |spans| && spans[k].quoted
    ensures
      var i, j := Offset(spans, k), Offset(spans, k) + |spans[k].text|;
      i < j <= |text|
      // It ends with its opener's own mate, or with the run.
      && (j < |text| ==> j - 1 > i && (text[i], text[j - 1]) in {('"', '"'), ('\'', '\''), ('\U{201C}', '\U{201D}'), ('\U{2018}', '\U{2019}')})
      // A single quote that ends it is followed by white space or one of twelve marks.
      && (j < |text| && text[i] in {'\'', '\U{2018}'} ==>
            || IsWhitespace(text[j])
            || text[j] in {'.', ',', ';', ':', '!', '?', ')', ']', '}', '-', '\U{2014}', '\U{2013}'})
  {
    SpanAt(text, spans, k);
  }

  // No mate inside a coloured span could have ended it sooner: none of a double quote, and of a
  // single quote only what no white space or mark follows.
  lemma ColouredEndsAtFirst(text: string, spans: seq<Span>, k: nat, m: nat)
    requires IsSegmentation(text, spans) && k < |spans| && spans[k].quoted
    requires Offset(spans, k) < m < Offset(spans, k) + |spans[k].text| - 1
    ensures
      var i := Offset(spans, k);
      m + 1 < |text|
      && !(text[i] == '"' && text[m] == '"') && !(text[i] == '\U{201C}' && text[m] == '\U{201D}')
      && ((text[i] == '\'' && text[m] == '\'') || (text[i] == '\U{2018}' && text[m] == '\U{2019}') ==>
            && !IsWhitespace(text[m + 1])
            && text[m + 1] !in {'.', ',', ';', ':', '!', '?', ')', ']', '}', '-', '\U{2014}', '\U{2013}'})
  {
    SpanAt(text, spans, k);
    assert !Closes(text, text[Offset(spans, k)], m);
  }

  predicate IsLetter(c: char) { 'a' <= c <= 'z' || 'A' <= c <= 'Z' }

  // An apostrophe inside a word neither starts nor ends a coloured span.
  lemma ApostropheIsKept(text: string, spans: seq<Span>, k: nat, i: nat)
    requires IsSegmentation(text, spans) && k < |spans| && spans[k].quoted
    requires 0 < i && i + 1 < |text| && text[i] in {'\'', '\U{2018}', '\U{2019}'}
    requires IsLetter(text[i - 1]) && IsLetter(text[i + 1])
    ensures Offset(spans, k) != i && Offset(spans, k) + |spans[k].text| - 1 != i
  {
    ColouredStarts(text, spans, k);
    ColouredEnds(text, spans, k);
  }

  // So a text without any other quote is one plain span.
  lemma ContractionsArePlain(text: string, spans: seq<Span>)
    requires IsSegmentation(text, spans) && text != ""
    requires forall i :: 0 <= i < |text| && text[i] in {'"', '\'', '\U{201C}', '\U{2018}'} ==>
                           0 < i && text[i] in {'\'', '\U{2018}'} && IsLetter(text[i - 1])
    ensures spans == [Span(text, false)]
  {
    forall k | 0 <= k < |spans| ensures !spans[k].quoted {
      if spans[k].quoted { ColouredStarts(text, spans, k); }
    }
    assert Segments(text, spans, 0, |text|);
    assert |spans| <= 1;
    SegmentationConcat(text, spans);
    assert spans != [] && spans[1..] == [];
    assert Concat(spans) == spans[0].text + "" == spans[0].text;
    assert spans == [spans[0]] && !spans[0].quoted;
  }

  // The first legal closer at or after `from`; `work` counts the characters looked at.
  method FindClose(text: string, from: nat, open: char) returns (r: Option<nat>, ghost work: nat)
    requires from <= |text| && MatchingClose(open).Some?
    ensures r.Some? ==>
              && from <= r.value < |text| && Closes(text, open, r.value)
              && NoCloseIn(text, open, from, r.value)
    ensures r.None? ==> NoCloseIn(text, open, from, |text|)
    ensures work == (if r.Some? then r.value + 1 else |text|) - from
  {
    var close := MatchingClose(open).value;
    var j := from;
    work := 0;
    while j < |text|
      invariant from <= j <= |text|
      invariant NoCloseIn(text, open, from, j)
      invariant work == j - from
    {
      work := work + 1;
      if text[j] == close {
        if !IsSingle(open) { return Some(j), work; }
        var ok := j + 1 == |text| || IsWhitespace(text[j + 1]) || IsClosingPunct(text[j + 1]);
        if ok { return Some(j), work; }
      }
      j := j + 1;
    }
    r := None;
  }

  // Where the scanner stands: spans pushed up to the plain text gathered just before `i`.
  ghost predicate Pending(text: string, spans: seq<Span>, plain: string, i: nat) {
    && |plain| <= i <= |text| && plain == text[i - |plain|..i]
    && Segments(text, spans, 0, i - |plain|)
    && NoOpenerIn(text, i - |plain|, i)
    && (spans != [] ==> spans[|spans| - 1].quoted)
  }

  lemma GatherPlain(text: string, spans: seq<Span>, plain: string, i: nat)
    requires Pending(text, spans, plain, i) && i < |text| && !Opens(text, i)
    ensures Pending(text, spans, plain + [text[i]], i + 1)
  {
  }

  lemma PushQuoted(text: string, spans: seq<Span>, i: nat, stop: nat)
    requires Segments(text, spans, 0, i)
    requires i < stop <= |text| && Opens(text, i) && QuotedUpTo(text, i, stop)
    ensures Pending(text, spans + [Span(text[i..stop], true)], "", stop)
  {
    SegmentsAppend(text, spans, Span(text[i..stop], true), 0, i, stop);
  }

  // Plain text gathered so far becomes a span, unless there is none: the spans are then right
  // for everything scanned, and what was there before is kept.
  method FlushPlain(spans: seq<Span>, plain: string, ghost text: string, ghost i: nat) returns (r: seq<Span>)
    requires Pending(text, spans, plain, i)
    ensures Segments(text, r, 0, i)
    ensures spans <= r && |r| == |spans| + if plain == "" then 0 else 1
  {
    if plain == "" {
      r := spans;
    } else {
      SegmentsAppend(text, spans, Span(plain, false), 0, i - |plain|, i);
      r := spans + [Span(plain, false)];
    }
  }

  lemma StopIsRight(text: string, i: nat, end: Option<nat>)
    requires i < |text| && Opens(text, i)
    requires end.Some? ==> i < end.value < |text| && Closes(text, text[i], end.value) && NoCloseIn(text, text[i], i + 1, end.value)
    requires end.None? ==> NoCloseIn(text, text[i], i + 1, |text|)
    ensures QuotedUpTo(text, i, match end case Some(j) => j + 1 case None => |text|)
  {
  }

  // The scanner finds the segmentation, looking at each character in one loop or the other
  // exactly once.
  method QuoteColorRuns(text: string) returns (spans: seq<Span>, ghost work: nat)
    ensures IsSegmentation(text, spans)
    ensures work == |text|
  {
    spans := [];
    var plain, i := "", 0;
    work := 0;
    while i < |text|
      invariant Pending(text, spans, plain, i)
      invariant work == i
    {
      work := work + 1;
      if Opens(text, i) {
        var end, looked := FindClose(text, i + 1, text[i]);
        work := work + looked;
        var stop := match end case Some(j) => j + 1 case None => |text|;
        StopIsRight(text, i, end);
        spans := FlushPlain(spans, plain, text, i);
        PushQuoted(text, spans, i, stop);
        spans := spans + [Span(text[i..stop], true)];
        if end == None { return; }
        plain, i := "", stop;
      } else {
        GatherPlain(text, spans, plain, i);
        plain := plain + [text[i]];
        i := i + 1;
      }
    }
    spans := FlushPlain(spans, plain, text, i);
    if spans == [] { spans := [Span(text, false)]; }
  }
}
