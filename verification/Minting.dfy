/** How `create_node` mints an id (dolt_store.rs): one more than the highest numeric suffix. */
module Minting {
  import opened Wrappers
  import opened Text

  const U64_RANGE: nat := 0x1_0000_0000_0000_0000

  // Rust's `parse::<u64>`: digits, after an optional plus sign, that stay in range.
  function ParseU64(s: string): Option<nat> {
    var digits := if s != "" && s[0] == '+' then s[1..] else s;
    if digits == "" || !AllDigits(digits) || DecimalValue(digits) >= U64_RANGE then None
    else Some(DecimalValue(digits))
  }

  // Digits are read as the number they spell, with or without a plus sign, up to the largest
  // unsigned 64-bit number. Nothing else is a number.
  lemma ParseU64Reads(digits: string)
    requires digits != "" && forall k :: 0 <= k < |digits| ==> '0' <= digits[k] <= '9'
    ensures ParseU64(digits) == ParseU64("+" + digits)
    ensures ParseU64(digits) == if DecimalValue(digits) <= 0xFFFF_FFFF_FFFF_FFFF then Some(DecimalValue(digits)) else None
    ensures ParseU64("0" + digits) == ParseU64(digits)
  {
    assert ("+" + digits)[1..] == digits;
    LeadingZero(digits);
  }

  lemma {:induction false} LeadingZero(digits: string)
    requires AllDigits(digits)
    ensures AllDigits("0" + digits) && DecimalValue("0" + digits) == DecimalValue(digits)
  {
    var more := "0" + digits;
    assert forall k :: 0 <= k < |more| ==> more[k] == if k == 0 then '0' else digits[k - 1];
    if digits == "" {
      assert more[..0] == "";
    } else {
      assert more[..|digits|] == "0" + digits[..|digits| - 1];
      LeadingZero(digits[..|digits| - 1]);
    }
  }

  lemma NotANumber(s: string)
    ensures ParseU64("") == None && ParseU64("+") == None
    ensures (exists k :: 0 <= k < |s| && !('0' <= s[k] <= '9') && (k > 0 || s[0] != '+')) ==> ParseU64(s) == None
  {
    if k :| 0 <= k < |s| && !('0' <= s[k] <= '9') && (k > 0 || s[0] != '+') {
      if s[0] == '+' { assert s[1..][k - 1] == s[k]; }
    }
  }

  // The numeric suffix of an id, if it has the prefix and one.
  function Suffix(prefix: string, id: string): Option<nat> {
    if prefix <= id then ParseU64(id[|prefix|..]) else None
  }

  // After the prefix stands the number, and an id without the prefix has none.
  lemma SuffixIs(prefix: string, id: string)
    ensures Suffix(prefix, prefix + id) == ParseU64(id)
    ensures !(prefix <= id) ==> Suffix(prefix, id) == None
  {
    assert (prefix + id)[|prefix|..] == id;
  }

  // The largest number `of` gives any of the ids, or 0.
  ghost predicate Largest(ids: set<string>, of: string -> Option<nat>, max: nat) {
    && (forall id :: id in ids && of(id).Some? ==> of(id).value <= max)
    && (max == 0 || exists id :: id in ids && of(id) == Some(max))
  }

  ghost predicate Highest(prefix: string, ids: set<string>, max: nat) {
    Largest(ids, id => Suffix(prefix, id), max)
  }

  lemma LargestWith(ids: set<string>, of: string -> Option<nat>, max: nat, id: string)
    requires Largest(ids, of, max)
    ensures Largest(ids + {id}, of, if of(id).Some? && of(id).value > max then of(id).value else max)
  {
    if max != 0 {
      var x :| x in ids && of(x) == Some(max);
      assert x in ids + {id};
    }
    assert id in ids + {id};
  }

  lemma LargerIsNew(ids: set<string>, of: string -> Option<nat>, max: nat, id: string)
    requires Largest(ids, of, max) && of(id).Some? && of(id).value > max
    ensures id !in ids
  {
  }

  function IdSet(rows: seq<string>): set<string> { set id | id in rows }

  // The highest suffix there is, or 0, as one pass over the rows of a `LIKE 'prefix%'` query.
  method HighestSuffix(prefix: string, rows: seq<string>) returns (max: nat)
    ensures Highest(prefix, IdSet(rows), max) && max < U64_RANGE
  {
    max := 0;
    for i := 0 to |rows|
      invariant Highest(prefix, IdSet(rows[..i]), max) && max < U64_RANGE
    {
      assert rows[..i + 1] == rows[..i] + [rows[i]];
      assert IdSet(rows[..i + 1]) == IdSet(rows[..i]) + {rows[i]};
      LargestWith(IdSet(rows[..i]), id => Suffix(prefix, id), max, rows[i]);
      match Suffix(prefix, rows[i])
      case None =>
      case Some(n) => if n > max { max := n; }
    }
    assert rows[..|rows|] == rows;
  }

  // `max + 1` in 64 bits.
  function NextSuffix(max: nat): nat { (max + 1) % U64_RANGE }

  function Minted(prefix: string, max: nat): string { prefix + Decimal(NextSuffix(max)) }

  lemma PrintedSuffix(prefix: string, n: nat)
    requires n < U64_RANGE
    ensures Suffix(prefix, prefix + Decimal(n)) == Some(n)
  {
    DecimalRoundTrip(n);
    assert (prefix + Decimal(n))[|prefix|..] == Decimal(n);
    assert IsDigit(Decimal(n)[0]);
  }

  lemma MintedSuffix(prefix: string, max: nat)
    ensures Suffix(prefix, Minted(prefix, max)) == Some(NextSuffix(max))
  {
    PrintedSuffix(prefix, NextSuffix(max));
  }

  // The minted id is new, whatever ids the table holds, except when the suffixes are used up
  // to the last 64-bit number and the wrapped-around id is itself taken.
  lemma MintedIsNew(prefix: string, ids: set<string>, max: nat)
    requires Highest(prefix, ids, max) && max <= 0xFFFF_FFFF_FFFF_FFFF
    ensures Minted(prefix, max) !in ids <==> !(max == 0xFFFF_FFFF_FFFF_FFFF && prefix + "0" in ids)
  {
    MintedSuffix(prefix, max);
    NextIs(max);
    if max < U64_RANGE - 1 {
      LargerIsNew(ids, id => Suffix(prefix, id), max, Minted(prefix, max));
    }
  }

  // The concrete collision, two ids inserted by hand: the last 64-bit number, and zero.
  lemma LastNumberCollides(prefix: string, last: nat)
    requires last == U64_RANGE - 1
    ensures
      var ids := {prefix + Decimal(last), prefix + "0"};
      Highest(prefix, ids, last) && Minted(prefix, last) == prefix + "0" && Minted(prefix, last) in ids
  {
    PrintedSuffix(prefix, last);
    PrintedSuffix(prefix, 0);
    LastWraps(last);
    assert prefix + Decimal(last) in {prefix + Decimal(last), prefix + "0"};
  }

  lemma LastWraps(last: nat)
    requires last == U64_RANGE - 1
    ensures NextSuffix(last) == 0 && Decimal(0) == "0"
  {
  }

  lemma NextIs(max: nat)
    requires max <= 0xFFFF_FFFF_FFFF_FFFF
    ensures NextSuffix(max) == if max < 0xFFFF_FFFF_FFFF_FFFF then max + 1 else 0
    ensures Decimal(0) == "0"
  {
  }

  // ---- Over any sequence of creations and hand-inserted ids ----

  datatype Insert = Create | ByHand(id: string)

  ghost function MaxOf(prefix: string, ids: set<string>): (max: nat)
    ensures Highest(prefix, ids, max) && max < U64_RANGE
  {
    var suffixes := set id | id in ids && Suffix(prefix, id).Some? :: Suffix(prefix, id).value;
    var max := LargestOf(suffixes);
    assert Highest(prefix, ids, max) by {
      forall id | id in ids && Suffix(prefix, id).Some? ensures Suffix(prefix, id).value <= max {
        assert Suffix(prefix, id).value in suffixes;
      }
      if max != 0 {
        assert max in suffixes;
        var id :| id in ids && Suffix(prefix, id).Some? && Suffix(prefix, id).value == max;
      }
    }
    max
  }

  ghost function LargestOf(s: set<nat>): (max: nat)
    ensures forall n :: n in s ==> n <= max
    ensures max == 0 || max in s
  {
    if s == {} then 0
    else
      var n :| n in s;
      var rest := LargestOf(s - {n});
      assert s == (s - {n}) + {n};
      if n > rest then n else rest
  }

  // The ids in the table, and the ids minted, after a sequence of insertions.
  ghost function After(prefix: string, ids: set<string>, inserts: seq<Insert>): (set<string>, seq<string>) {
    if inserts == [] then (ids, [])
    else
      var before := After(prefix, ids, inserts[..|inserts| - 1]);
      match inserts[|inserts| - 1]
      case ByHand(id) => (before.0 + {id}, before.1)
      case Create =>
        var id := Minted(prefix, MaxOf(prefix, before.0));
        (before.0 + {id}, before.1 + [id])
  }

  // No suffix in the table is the last 64-bit number.
  predicate RoomLeft(prefix: string, ids: set<string>) {
    forall id :: id in ids ==> Suffix(prefix, id) != Some(0xFFFF_FFFF_FFFF_FFFF)
  }

  // While numbers last, no id is ever minted twice, and none was there before, by hand or not.
  lemma {:induction false} MintedNeverRepeat(prefix: string, ids: set<string>, inserts: seq<Insert>)
    requires RoomLeft(prefix, After(prefix, ids, inserts).0)
    ensures
      var minted := After(prefix, ids, inserts).1;
      && (forall i, j :: 0 <= i < j < |minted| ==> minted[i] != minted[j])
      && (forall id :: id in minted ==> id !in ids && id in After(prefix, ids, inserts).0)
      && ids <= After(prefix, ids, inserts).0
    decreases |inserts|
  {
    if inserts != [] {
      var rest, last := inserts[..|inserts| - 1], inserts[|inserts| - 1];
      var before := After(prefix, ids, rest);
      MintedNeverRepeat(prefix, ids, rest);
      if last.Create? {
        var max := MaxOf(prefix, before.0);
        assert forall id :: id in before.0 ==> id in After(prefix, ids, inserts).0;
        MintedIsNew(prefix, before.0, max);
      }
    }
  }
}
