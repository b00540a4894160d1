/** The order of ids and of edge rows: what the engine's `ORDER BY` sorts on. */
module Ordering {
  // Character by character, a proper prefix first.
  predicate Less(a: string, b: string) {
    b != "" && (a == "" || a[0] < b[0] || (a[0] == b[0] && Less(a[1..], b[1..])))
  }

  // One sorts before another exactly if it is a proper prefix of it, or has the lower character
  // where they first differ.
  lemma {:induction false} LessIsAlphabetical(a: string, b: string)
    ensures Less(a, b) <==>
              || (|a| < |b| && a == b[..|a|])
              || exists k :: 0 <= k < |a| && k < |b| && a[..k] == b[..k] && a[k] < b[k]
  {
    if a != "" && b != "" && a[0] == b[0] {
      LessIsAlphabetical(a[1..], b[1..]);
      assert a == [a[0]] + a[1..] && b == [b[0]] + b[1..];
      if |a| < |b| { assert b[..|a|] == [b[0]] + b[1..][..|a| - 1]; }
      forall k | 1 <= k < |a| && k < |b|
        ensures a[..k] == b[..k] <==> a[1..][..k - 1] == b[1..][..k - 1]
      {
        assert a[..k] == [a[0]] + a[1..][..k - 1] && b[..k] == [b[0]] + b[1..][..k - 1];
      }
      if k :| 0 <= k < |a| - 1 && k < |b| - 1 && a[1..][..k] == b[1..][..k] && a[1..][k] < b[1..][k] {
        assert a[..k + 1] == b[..k + 1] && a[k + 1] < b[k + 1];
      }
    } else if a != "" && b != "" {
      assert a[..0] == b[..0];
    }
  }

  lemma {:induction false} LessIsStrict(a: string)
    ensures !Less(a, a)
  {
    if a != "" { LessIsStrict(a[1..]); }
  }

  lemma {:induction false} LessIsTotal(a: string, b: string)
    ensures a == b || Less(a, b) || Less(b, a)
  {
    if a != "" && b != "" && a[0] == b[0] {
      LessIsTotal(a[1..], b[1..]);
      assert a == [a[0]] + a[1..] && b == [b[0]] + b[1..];
    }
  }

  lemma {:induction false} LessIsTransitive(a: string, b: string, c: string)
    requires Less(a, b) && Less(b, c)
    ensures Less(a, c)
  {
    if a != "" && b != "" && c != "" && a[0] == b[0] == c[0] { LessIsTransitive(a[1..], b[1..], c[1..]); }
  }

  // A row of `edges`, with the columns the reads sort on.
  datatype Row = Row(from: string, at: nat, to: string)

  // `ORDER BY from_id, created_at, to_id`.
  predicate Before(a: Row, b: Row) {
    || Less(a.from, b.from)
    || (a.from == b.from && (a.at < b.at || (a.at == b.at && Less(a.to, b.to))))
  }

  lemma BeforeIsStrict(a: Row)
    ensures !Before(a, a)
  {
    LessIsStrict(a.from);
    LessIsStrict(a.to);
  }

  lemma BeforeIsTotal(a: Row, b: Row)
    ensures a == b || Before(a, b) || Before(b, a)
  {
    LessIsTotal(a.from, b.from);
    LessIsTotal(a.to, b.to);
  }

  lemma BeforeIsTransitive(a: Row, b: Row, c: Row)
    requires Before(a, b) && Before(b, c)
    ensures Before(a, c)
  {
    if Less(a.from, b.from) && Less(b.from, c.from) { LessIsTransitive(a.from, b.from, c.from); }
    if Less(a.to, b.to) && Less(b.to, c.to) { LessIsTransitive(a.to, b.to, c.to); }
  }

  predicate Sorted(rows: seq<Row>) {
    forall i, j :: 0 <= i < j < |rows| ==> Before(rows[i], rows[j])
  }

  lemma {:induction false} FirstExists(rows: set<Row>) returns (first: Row)
    requires rows != {}
    ensures first in rows && forall r :: r in rows ==> r == first || Before(first, r)
  {
    var x :| x in rows;
    if rows == {x} {
      first := x;
    } else {
      var rest := rows - {x};
      assert rows == rest + {x};
      var f := FirstExists(rest);
      BeforeIsTotal(f, x);
      if Before(f, x) {
        first := f;
      } else {
        first := x;
        forall r | r in rows ensures r == x || Before(x, r) {
          if r != x && r != f { BeforeIsTransitive(x, f, r); }
        }
      }
    }
  }

  // A set of rows can be listed in order in one way only.
  lemma {:induction false} SortedIsUnique(a: seq<Row>, b: seq<Row>)
    requires Sorted(a) && Sorted(b)
    requires forall r :: r in a <==> r in b
    ensures a == b
    decreases |a|
  {
    assert a == [] || a[0] in b;
    assert b == [] || b[0] in a;
    if a != [] {
      if a[0] != b[0] {
        var i :| 0 <= i < |b| && b[i] == a[0];
        var j :| 0 <= j < |a| && a[j] == b[0];
        assert Before(b[0], b[i]) && Before(a[0], a[j]);
        BeforeIsTransitive(a[0], b[0], a[0]);
        BeforeIsStrict(a[0]);
      }
      forall r ensures r in a[1..] <==> r in b[1..] {
        TailMembers(a, r);
        TailMembers(b, r);
      }
      SortedIsUnique(a[1..], b[1..]);
      assert a == [a[0]] + a[1..] && b == [b[0]] + b[1..];
    }
  }

  lemma TailMembers(rows: seq<Row>, r: Row)
    requires Sorted(rows) && rows != []
    ensures r in rows[1..] <==> r in rows && r != rows[0]
  {
    assert rows == [rows[0]] + rows[1..];
    if r in rows[1..] {
      var k :| 0 <= k < |rows[1..]| && rows[1..][k] == r;
      assert rows[k + 1] == r && Before(rows[0], rows[k + 1]);
      BeforeIsStrict(r);
    }
  }
}
