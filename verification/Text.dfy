/** Decimal numerals and byte lengths, as Rust's `format!`, `parse` and `len` see them. */
module Text {
  import opened Wrappers

  predicate IsDigit(c: char) { '0' <= c <= '9' }

  function DigitChar(d: nat): char
    requires d < 10
  {
    "0123456789"[d]
  }

  function DigitValue(c: char): nat
    requires IsDigit(c)
  {
    c as int - '0' as int
  }

  function Decimal(n: nat): string {
    if n < 10 then [DigitChar(n)] else Decimal(n / 10) + [DigitChar(n % 10)]
  }

  predicate AllDigits(s: string) { forall k :: 0 <= k < |s| ==> IsDigit(s[k]) }

  function DecimalValue(s: string): nat
    requires AllDigits(s)
  {
    if s == "" then 0 else 10 * DecimalValue(s[..|s| - 1]) + DigitValue(s[|s| - 1])
  }

  // Printing and reading decimals undo each other.
  lemma {:induction false} DecimalRoundTrip(n: nat)
    ensures Decimal(n) != "" && AllDigits(Decimal(n)) && DecimalValue(Decimal(n)) == n
  {
    var last := Decimal(n)[|Decimal(n)| - 1];
    if n < 10 {
      assert Decimal(n)[..0] == "";
    } else {
      DecimalRoundTrip(n / 10);
      assert Decimal(n)[..|Decimal(n)| - 1] == Decimal(n / 10);
    }
  }

  lemma DecimalInjective(m: nat, n: nat)
    requires Decimal(m) == Decimal(n)
    ensures m == n
  {
    DecimalRoundTrip(m);
    DecimalRoundTrip(n);
  }

  // How many bytes of UTF-8 a character takes.
  function Utf8Width(c: char): (w: nat)
    ensures 1 <= w <= 4
  {
    var code := c as int;
    if code < 0x80 then 1 else if code < 0x800 then 2 else if code < 0x1_0000 then 3 else 4
  }

  function ByteLen(s: string): nat {
    if s == "" then 0 else Utf8Width(s[0]) + ByteLen(s[1..])
  }

  lemma {:induction false} ByteLenConcat(a: string, b: string)
    ensures ByteLen(a + b) == ByteLen(a) + ByteLen(b)
  {
    if a == "" {
      assert a + b == b;
    } else {
      ByteLenConcat(a[1..], b);
      assert (a + b)[1..] == a[1..] + b;
    }
  }

  lemma {:induction false} ByteLenBounds(s: string)
    ensures |s| <= ByteLen(s) <= 4 * |s|
  {
    if s != "" { ByteLenBounds(s[1..]); }
  }

  lemma {:induction false} DecimalBytes(n: nat)
    ensures ByteLen(Decimal(n)) == |Decimal(n)|
  {
    if n < 10 {
      assert Decimal(n)[1..] == "";
    } else {
      DecimalBytes(n / 10);
      ByteLenConcat(Decimal(n / 10), [DigitChar(n % 10)]);
      assert [DigitChar(n % 10)][1..] == "";
    }
  }

  // ---- The bytes themselves, section 3 of RFC 3629 ----

  function Utf8(c: char): seq<nat> {
    var code := c as int;
    if code < 0x80 then [code]
    else if code < 0x800 then [0xc0 + code / 64, 0x80 + code % 64]
    else if code < 0x1_0000 then [0xe0 + code / 64 / 64, 0x80 + code / 64 % 64, 0x80 + code % 64]
    else [0xf0 + code / 64 / 64 / 64, 0x80 + code / 64 / 64 % 64, 0x80 + code / 64 % 64, 0x80 + code % 64]
  }

  predicate Follows(bytes: seq<nat>, n: nat) {
    |bytes| > n && forall k :: 1 <= k <= n ==> 0x80 <= bytes[k] < 0xc0
  }

  // The code point the bytes open with, and how many spell it. One spelled longer than it has to
  // be is malformed.
  function ReadUtf8(bytes: seq<nat>): Option<(nat, nat)> {
    if bytes == [] then None
    else if bytes[0] < 0x80 then Some((bytes[0], 1))
    else if 0xc0 <= bytes[0] < 0xe0 && Follows(bytes, 1) then Spelled(Sixes(bytes[0] - 0xc0, bytes[1..2]), 2, 0x80)
    else if 0xe0 <= bytes[0] < 0xf0 && Follows(bytes, 2) then Spelled(Sixes(bytes[0] - 0xe0, bytes[1..3]), 3, 0x800)
    else if 0xf0 <= bytes[0] < 0xf8 && Follows(bytes, 3) then Spelled(Sixes(bytes[0] - 0xf0, bytes[1..4]), 4, 0x1_0000)
    else None
  }

  // The number so far, and six bits more a byte.
  function Sixes(lead: nat, bytes: seq<nat>): nat
    requires forall k :: 0 <= k < |bytes| ==> 0x80 <= bytes[k] < 0xc0
    decreases |bytes|
  {
    if bytes == [] then lead else Sixes(lead * 64 + bytes[0] - 0x80, bytes[1..])
  }

  function Spelled(code: nat, width: nat, least: nat): Option<(nat, nat)> {
    if code < least then None else Some((code, width))
  }

  lemma SixesOf(n: nat)
    ensures Sixes(n / 64, [0x80 + n % 64]) == n
    ensures Sixes(n / 64 / 64, [0x80 + n / 64 % 64, 0x80 + n % 64]) == n
    ensures Sixes(n / 64 / 64 / 64, [0x80 + n / 64 / 64 % 64, 0x80 + n / 64 % 64, 0x80 + n % 64]) == n
  {
    var a, b, c := 0x80 + n / 64 / 64 % 64, 0x80 + n / 64 % 64, 0x80 + n % 64;
    assert [c][1..] == [] && [b, c][1..] == [c] && [a, b, c][1..] == [b, c];
  }

  lemma AfterLead(lead: nat, more: seq<nat>, rest: seq<nat>)
    requires forall k :: 0 <= k < |more| ==> 0x80 <= more[k] < 0xc0
    ensures var bytes := [lead] + more + rest; bytes[0] == lead && Follows(bytes, |more|) && bytes[1..|more| + 1] == more
  {
    var bytes := [lead] + more + rest;
    assert forall k :: 1 <= k <= |more| ==> bytes[k] == more[k - 1];
  }

  // Every character is read back from its bytes, and its width is how many they are.
  lemma Utf8IsRead(c: char, rest: seq<nat>)
    ensures ReadUtf8(Utf8(c) + rest) == Some((c as int, Utf8Width(c)))
    ensures |Utf8(c)| == Utf8Width(c)
  {
    var bytes := Utf8(c);
    assert bytes == [bytes[0]] + bytes[1..];
    SixesOf(c as int);
    AfterLead(bytes[0], bytes[1..], rest);
  }

  function Bytes(s: string): seq<nat> { if s == "" then [] else Utf8(s[0]) + Bytes(s[1..]) }

  lemma {:induction false} ByteLenIs(s: string)
    ensures |Bytes(s)| == ByteLen(s)
  {
    if s != "" {
      Utf8IsRead(s[0], []);
      ByteLenIs(s[1..]);
    }
  }

  // No two texts have the same bytes.
  lemma {:induction false} BytesTellApart(a: string, b: string)
    requires Bytes(a) == Bytes(b)
    ensures a == b
    decreases |a|
  {
    if a != "" { Utf8IsRead(a[0], Bytes(a[1..])); }
    if b != "" { Utf8IsRead(b[0], Bytes(b[1..])); }
    if a != "" && b != "" {
      assert a[0] as int == b[0] as int;
      assert Bytes(a)[|Utf8(a[0])|..] == Bytes(a[1..]) && Bytes(b)[|Utf8(b[0])|..] == Bytes(b[1..]);
      BytesTellApart(a[1..], b[1..]);
      assert a == [a[0]] + a[1..] && b == [b[0]] + b[1..];
    }
  }

  function Pow10(k: nat): nat { if k == 0 then 1 else 10 * Pow10(k - 1) }

  lemma {:induction false} DecimalWidth(n: nat, k: nat)
    requires 1 <= k && n < Pow10(k)
    ensures |Decimal(n)| <= k
    decreases k
  {
    if n >= 10 {
      assert Pow10(k) == 10 * Pow10(k - 1);
      assert n / 10 < Pow10(k - 1);
      DecimalWidth(n / 10, k - 1);
    }
  }
}
