/** The path printer of db_backup.rs, read back by a shell: word splitting and quote removal
    after sections 2.2.1, 2.2.2 and 2.6.7 of the POSIX Shell Command Language. */
module ShellWord {
  import opened Wrappers

  predicate IsAsciiAlphanumeric(c: char) { '0' <= c <= '9' || 'A' <= c <= 'Z' || 'a' <= c <= 'z' }

  // What needs no quoting.
  predicate IsSafe(c: char) { IsAsciiAlphanumeric(c) || c in {'.', '_', '-', '/', '=', ':', '+', ',', '@'} }

  predicate AllSafe(s: string) { forall k :: 0 <= k < |s| ==> IsSafe(s[k]) }

  // Each apostrophe closes the quotes, stands escaped, and opens them again.
  function ReopenedChar(c: char): string { if c == '\'' then "'\\''" else [c] }

  function Reopened(s: string): string { if s == "" then "" else ReopenedChar(s[0]) + Reopened(s[1..]) }

  function ShellQuote(path: string): string {
    if path != "" && AllSafe(path) then path else "'" + Reopened(path) + "'"
  }

  // A path is printed as it stands exactly if it is not empty and holds nothing but letters,
  // digits and a few harmless signs.
  lemma BareIsHarmless(path: string)
    ensures ShellQuote(path) == path <==>
              path != "" && forall k :: 0 <= k < |path| ==>
                  'a' <= path[k] <= 'z' || 'A' <= path[k] <= 'Z' || '0' <= path[k] <= '9' || path[k] in "._-/=:+,@"
    ensures ShellQuote("") == "''"
  {
    ReopenedGrows(path);
    assert forall c: char :: c in "._-/=:+,@" <==> c in {'.', '_', '-', '/', '=', ':', '+', ',', '@'};
  }

  lemma {:induction false} ReopenedGrows(s: string)
    ensures |Reopened(s)| >= |s|
  {
    if s != "" { ReopenedGrows(s[1..]); }
  }

  // ---- The shell ----

  predicate IsBlank(c: char) { c == ' ' || c == '\t' }

  // Outside quotes these start something other than a plain character of a word.
  predicate IsSpecial(c: char) {
    c in {'|', '&', ';', '<', '>', '(', ')', '$', '`', '"', '*', '?', '[', ']', '#', '~', '%', '!', '{', '}', '^', '\n'}
  }

  // Reads to the closing single quote: nothing inside is special.
  function SingleQuoted(text: string): Option<(string, string)> {
    if text == "" then None
    else if text[0] == '\'' then Some(("", text[1..]))
    else
      match SingleQuoted(text[1..])
      case None => None
      case Some(pair) => Some(([text[0]] + pair.0, pair.1))
  }

  lemma {:induction false} SingleQuotedShorter(text: string)
    ensures SingleQuoted(text).Some? ==> |SingleQuoted(text).value.1| < |text|
  {
    if text != "" { SingleQuotedShorter(text[1..]); }
  }

  function Finish(word: Option<string>): seq<string> { if word.None? then [] else [word.value] }

  function Extend(word: Option<string>, s: string): Option<string> {
    Some(if word.None? then s else word.value + s)
  }

  function After(words: seq<string>, rest: Option<seq<string>>): Option<seq<string>> {
    match rest case None => None case Some(more) => Some(words + more)
  }

  // The words of a command line, `word` being the one begun so far. `None` if a quote is left
  // open or the line holds more than plain words.
  function Words(text: string, word: Option<string>): Option<seq<string>>
    decreases |text|
  {
    if text == "" then Some(Finish(word))
    else if IsBlank(text[0]) then After(Finish(word), Words(text[1..], None))
    else if text[0] == '\'' then
      SingleQuotedShorter(text[1..]);
      match SingleQuoted(text[1..])
      case None => None
      case Some(pair) => Words(pair.1, Extend(word, pair.0))
    else if text[0] == '\\' then
      if |text| == 1 then None
      else Words(text[2..], if text[1] == '\n' then word else Extend(word, [text[1]]))
    else if IsSpecial(text[0]) then None
    else Words(text[1..], Extend(word, [text[0]]))
  }

  // ---- Reading the printer's output ----

  lemma {:induction false} SafeIsRead(s: string, rest: string, word: Option<string>)
    requires AllSafe(s) && s != ""
    ensures Words(s + rest, word) == Words(rest, Extend(word, s))
    decreases |s|
  {
    var text := s + rest;
    assert IsSafe(s[0]) && text[0] == s[0] && text[1..] == s[1..] + rest;
    assert s == [s[0]] + s[1..];
    SafeIsPlain(s[0]);
    if |s| > 1 {
      assert forall k :: 0 <= k < |s[1..]| ==> s[1..][k] == s[k + 1];
      SafeIsRead(s[1..], rest, Extend(word, [s[0]]));
      ExtendTwice(word, [s[0]], s[1..]);
    } else {
      assert s == [s[0]] && s[1..] + rest == rest;
    }
  }

  lemma SafeIsPlain(c: char)
    requires IsSafe(c)
    ensures !IsBlank(c) && c != '\'' && c != '\\' && !IsSpecial(c)
  {
  }

  lemma ExtendTwice(word: Option<string>, a: string, b: string)
    ensures Extend(Extend(word, a), b) == Extend(word, a + b)
  {
    if word.Some? { assert word.value + a + b == word.value + (a + b); }
  }

  lemma {:induction false} QuoteCloses(s: string, rest: string)
    requires '\'' !in s
    ensures SingleQuoted(s + "'" + rest) == Some((s, rest))
    ensures Reopened(s) == s
  {
    var text := s + "'" + rest;
    if s == "" {
      assert text[1..] == rest;
    } else {
      assert text[0] == s[0] && text[1..] == s[1..] + "'" + rest;
      assert s == [s[0]] + s[1..];
      QuoteCloses(s[1..], rest);
    }
  }

  lemma ReopenedCons(c: char, s: string)
    ensures Reopened([c] + s) == ReopenedChar(c) + Reopened(s)
  {
    assert ([c] + s)[1..] == s;
  }

  lemma {:induction false} ReopenedConcat(a: string, b: string)
    ensures Reopened(a + b) == Reopened(a) + Reopened(b)
    decreases |a|
  {
    if a == "" {
      assert a + b == b;
    } else {
      var c, s := a[0], a[1..];
      assert a == [c] + s && a + b == [c] + (s + b);
      ReopenedCons(c, s);
      ReopenedCons(c, s + b);
      ReopenedConcat(s, b);
    }
  }

  function ApostropheAt(s: string): (k: nat)
    requires '\'' in s
    ensures k < |s| && s[k] == '\'' && '\'' !in s[..k]
  {
    if s[0] == '\'' then 0 else 1 + ApostropheAt(s[1..])
  }

  // `'a'` alone.
  lemma PlainQuotesRead(s: string, rest: string, word: Option<string>)
    requires '\'' !in s
    ensures Words("'" + s + "'" + rest, word) == Words(rest, Extend(word, s))
  {
    var text := "'" + s + "'" + rest;
    assert text[0] == '\'' && text[1..] == s + "'" + rest;
    QuoteCloses(s, rest);
  }

  // `\'` alone.
  lemma EscapedApostropheRead(rest: string, word: Option<string>)
    ensures Words("\\'" + rest, word) == Words(rest, Extend(word, "'"))
  {
    var text := "\\'" + rest;
    assert text[0] == '\\' && text[1] == '\'' && text[2..] == rest;
  }

  lemma UpToApostrophe(a: string, tail: string, word: Option<string>)
    requires '\'' !in a
    ensures Words("'" + a + "'" + ("\\'" + tail), word) == Words(tail, Extend(word, a + "'"))
  {
    PlainQuotesRead(a, "\\'" + tail, word);
    EscapedApostropheRead(tail, Extend(word, a));
    ExtendTwice(word, a, "'");
  }

  // Quotes with any number of apostrophes inside: part by part, up to each one.
  lemma {:induction false} QuotesAreRead(s: string, rest: string, word: Option<string>)
    ensures Words("'" + Reopened(s) + "'" + rest, word) == Words(rest, Extend(word, s))
    decreases |s|
  {
    if '\'' !in s {
      QuoteCloses(s, rest);
      PlainQuotesRead(s, rest, word);
    } else {
      var k := ApostropheAt(s);
      FirstPartRead(s, k, rest, word);
      QuotesAreRead(s[k + 1..], rest, Extend(word, s[..k] + "'"));
      ExtendParts(word, s, k);
    }
  }

  lemma ExtendParts(word: Option<string>, s: string, k: nat)
    requires k < |s| && s[k] == '\''
    ensures Extend(Extend(word, s[..k] + "'"), s[k + 1..]) == Extend(word, s)
  {
    ExtendTwice(word, s[..k] + "'", s[k + 1..]);
    assert s[..k] + "'" + s[k + 1..] == s;
  }

  lemma FirstPartRead(s: string, k: nat, rest: string, word: Option<string>)
    requires k < |s| && s[k] == '\'' && '\'' !in s[..k]
    ensures Words("'" + Reopened(s) + "'" + rest, word)
         == Words("'" + Reopened(s[k + 1..]) + "'" + rest, Extend(word, s[..k] + "'"))
  {
    var a, b := s[..k], s[k + 1..];
    assert s == a + ("'" + b);
    ReopenedAround(a, b);
    RegroupQuotes(a, Reopened(b), rest);
    UpToApostrophe(a, "'" + Reopened(b) + "'" + rest, word);
  }

  lemma ReopenedAround(a: string, b: string)
    requires '\'' !in a
    ensures Reopened(a + ("'" + b)) == a + "'\\''" + Reopened(b)
  {
    ReopenedConcat(a, "'" + b);
    QuoteCloses(a, "");
    assert ("'" + b)[0] == '\'' && ("'" + b)[1..] == b;
  }

  lemma RegroupQuotes(a: string, more: string, rest: string)
    ensures "'" + (a + "'\\''" + more) + "'" + rest == "'" + a + "'" + ("\\'" + ("'" + more + "'" + rest))
  {
    assert "'\\''" == "'" + "\\'" + "'";
  }

  // Every path, printed, is one word of the command line, equal to the path; whatever follows
  // it after a blank is read as it would be alone.
  lemma PathIsOneWord(path: string, rest: string)
    requires rest == "" || IsBlank(rest[0])
    ensures Words(ShellQuote(path) + rest, None) ==
              if rest == "" then Some([path]) else After([path], Words(rest[1..], None))
  {
    if path != "" && AllSafe(path) {
      SafeIsRead(path, rest, None);
    } else {
      QuotesAreRead(path, rest, None);
    }
  }
}
