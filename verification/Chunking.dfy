/** The two greedy chunkers: `chunk_by_sql_bytes` (dolt_store.rs), bounded by item count and
    by bytes, and `chunk_statements` (db_migrate.rs), bounded by joined length. */
module Chunking {
  import opened Text

  const MAX_BATCH_IDS: nat := 500
  const SQL_BATCH_BUDGET: nat := 64 * 1024

  datatype Limits = Limits(items: nat, bytes: nat)

  const SQL_LIMITS := Limits(MAX_BATCH_IDS, SQL_BATCH_BUDGET)

  function Flatten<T>(chunks: seq<seq<T>>): seq<T> {
    if chunks == [] then [] else chunks[0] + Flatten(chunks[1..])
  }

  function Total<T>(items: seq<T>, cost: T -> nat): nat {
    if items == [] then 0 else cost(items[0]) + Total(items[1..], cost)
  }

  predicate Fits<T>(items: seq<T>, cost: T -> nat, lim: Limits) {
    |items| <= lim.items && Total(items, cost) <= lim.bytes
  }

  // Every chunk is within both bounds, or is a single item that alone is not.
  ghost predicate Packed<T>(chunks: seq<seq<T>>, cost: T -> nat, lim: Limits) {
    forall k :: 0 <= k < |chunks| ==> Allowed(chunks[k], cost, lim)
  }

  predicate Allowed<T>(chunk: seq<T>, cost: T -> nat, lim: Limits) {
    chunk != [] && (Fits(chunk, cost, lim) || |chunk| == 1)
  }

  // No chunk could have taken the item that opens the next one.
  ghost predicate Eager<T>(chunks: seq<seq<T>>, cost: T -> nat, lim: Limits) {
    forall k :: 0 < k < |chunks| ==> ClosedBy(chunks[k - 1], chunks[k], cost, lim)
  }

  ghost predicate ClosedBy<T>(chunk: seq<T>, next: seq<T>, cost: T -> nat, lim: Limits) {
    next != [] && !Fits(chunk + [next[0]], cost, lim)
  }

  // Closing one more chunk.
  lemma PushChunk<T>(chunks: seq<seq<T>>, c: seq<T>, cost: T -> nat, lim: Limits)
    requires Packed(chunks, cost, lim) && Eager(chunks, cost, lim)
    requires Allowed(c, cost, lim)
    requires chunks != [] ==> ClosedBy(chunks[|chunks| - 1], c, cost, lim)
    ensures Packed(chunks + [c], cost, lim) && Eager(chunks + [c], cost, lim)
    ensures Flatten(chunks + [c]) == Flatten(chunks) + c
  {
    var more := chunks + [c];
    FlattenAppend(chunks, c);
    forall k | 0 <= k < |more| ensures Allowed(more[k], cost, lim) {
      assert more[k] == if k < |chunks| then chunks[k] else c;
    }
    forall k | 0 < k < |more| ensures ClosedBy(more[k - 1], more[k], cost, lim) {
      assert more[k - 1] == chunks[k - 1];
      if k < |chunks| { assert ClosedBy(chunks[k - 1], chunks[k], cost, lim); }
    }
  }

  lemma OneMore<T>(items: seq<T>, x: T, cost: T -> nat, lim: Limits)
    ensures Total(items + [x], cost) == Total(items, cost) + cost(x)
    ensures Fits(items + [x], cost, lim) <==> |items| < lim.items && Total(items, cost) + cost(x) <= lim.bytes
  {
    TotalConcat(items, [x], cost);
  }

  lemma {:induction false} TotalConcat<T>(a: seq<T>, b: seq<T>, cost: T -> nat)
    ensures Total(a + b, cost) == Total(a, cost) + Total(b, cost)
  {
    if a == [] {
      assert a + b == b;
    } else {
      TotalConcat(a[1..], b, cost);
      assert (a + b)[1..] == a[1..] + b;
    }
  }

  lemma {:induction false} FlattenAppend<T>(chunks: seq<seq<T>>, c: seq<T>)
    ensures Flatten(chunks + [c]) == Flatten(chunks) + c
  {
    if chunks != [] {
      FlattenAppend(chunks[1..], c);
      assert (chunks + [c])[1..] == chunks[1..] + [c];
    }
  }

  lemma FlattenPrefix<T>(chunks: seq<seq<T>>, k: nat)
    requires k < |chunks|
    ensures Flatten(chunks[..k + 1]) == Flatten(chunks[..k]) + chunks[k]
  {
    assert chunks[..k + 1] == chunks[..k] + [chunks[k]];
    FlattenAppend(chunks[..k], chunks[k]);
  }

  lemma {:induction false} FlattenConcat<T>(a: seq<seq<T>>, b: seq<seq<T>>)
    ensures Flatten(a + b) == Flatten(a) + Flatten(b)
  {
    if a == [] {
      assert a + b == b;
    } else {
      FlattenConcat(a[1..], b);
      FlattenCons(a + b, a[0], a[1..] + b);
      FlattenCons(a, a[0], a[1..]);
    }
  }

  lemma FlattenCons<T>(chunks: seq<seq<T>>, first: seq<T>, rest: seq<seq<T>>)
    requires chunks == [first] + rest
    ensures Flatten(chunks) == first + Flatten(rest)
  {
    assert chunks[1..] == rest;
  }

  lemma FitsInside<T>(a: seq<T>, b: seq<T>, c: seq<T>, cost: T -> nat, lim: Limits)
    requires Fits(a + b + c, cost, lim)
    ensures Fits(b, cost, lim)
  {
    TotalConcat(a + b, c, cost);
    TotalConcat(a, b, cost);
  }

  // An eager partition of a tail never needs more chunks than any packed partition of the
  // whole: by the time the other has used k chunks, it has got no further.
  lemma {:induction false} EagerStaysAhead<T>(
      eager: seq<seq<T>>, other: seq<seq<T>>, behind: seq<T>, cost: T -> nat, lim: Limits)
    requires Eager(eager, cost, lim) && Packed(eager, cost, lim) && Packed(other, cost, lim)
    requires Flatten(other) == behind + Flatten(eager)
    ensures |eager| <= |other|
    decreases |other|
  {
    if eager != [] {
      var x, g := other[0], eager[0];
      assert Packed(other[1..], cost, lim) && Packed(eager[1..], cost, lim);
      assert Eager(eager[1..], cost, lim) by {
        forall k | 0 < k < |eager[1..]| ensures ClosedBy(eager[1..][k - 1], eager[1..][k], cost, lim) {
          assert ClosedBy(eager[k], eager[k + 1], cost, lim);
        }
      }
      var tail := Flatten(other[1..]);
      assert x + tail == behind + (g + Flatten(eager[1..]));
      if |x| <= |behind| {
        assert tail == (x + tail)[|x|..] == behind[|x|..] + Flatten(eager);
        EagerStaysAhead(eager, other[1..], behind[|x|..], cost, lim);
      } else {
        var n := |x| - |behind|;
        NotGreedier(eager, other, behind, cost, lim);
        assert tail == (x + tail)[|x|..] == g[n..] + Flatten(eager[1..]);
        EagerStaysAhead(eager[1..], other[1..], g[n..], cost, lim);
      }
    }
  }

  // No packed chunk swallows an eager chunk and the item after it.
  lemma NotGreedier<T>(eager: seq<seq<T>>, other: seq<seq<T>>, behind: seq<T>, cost: T -> nat, lim: Limits)
    requires eager != [] && other != []
    requires Eager(eager, cost, lim) && Packed(eager, cost, lim) && Packed(other, cost, lim)
    requires Flatten(other) == behind + Flatten(eager)
    ensures |other[0]| <= |behind| + |eager[0]|
  {
    var x, g, rest := other[0], eager[0], Flatten(eager[1..]);
    var whole := x + Flatten(other[1..]);
    assert whole == behind + (g + rest);
    assert Allowed(x, cost, lim) && Allowed(g, cost, lim);
    if |x| > |behind| + |g| && |eager| > 1 {
      var h := eager[1];
      assert ClosedBy(g, h, cost, lim);
      assert rest[0] == h[0];
      Swallows(x, behind, g, h[0], whole, rest);
      FitsInside(behind, g + [h[0]], x[|behind| + |g| + 1..], cost, lim);
    }
  }

  lemma Swallows<T>(x: seq<T>, behind: seq<T>, g: seq<T>, next: T, whole: seq<T>, rest: seq<T>)
    requires |x| > |behind| + |g| && x <= whole
    requires whole == behind + (g + rest)
    requires rest != [] && rest[0] == next
    ensures x == behind + (g + [next]) + x[|behind| + |g| + 1..]
  {
    var m := |behind| + |g|;
    assert whole[..m + 1] == behind + (g + [next]);
    assert x[..m + 1] == whole[..m + 1];
  }

  // No contiguous partition within the bounds has fewer chunks.
  lemma EagerIsFewest<T>(eager: seq<seq<T>>, other: seq<seq<T>>, cost: T -> nat, lim: Limits)
    requires Eager(eager, cost, lim) && Packed(eager, cost, lim) && Packed(other, cost, lim)
    requires Flatten(other) == Flatten(eager)
    ensures |eager| <= |other|
  {
    assert Flatten(other) == [] + Flatten(eager);
    EagerStaysAhead(eager, other, [], cost, lim);
  }

  // An item joins the open chunk, or closes it and opens the next.
  lemma TakeItem<T>(items: seq<T>, start: nat, index: nat, cost: T -> nat)
    requires start <= index < |items|
    ensures items[start..index + 1] == items[start..index] + [items[index]]
    ensures Total(items[start..index + 1], cost) == Total(items[start..index], cost) + cost(items[index])
    ensures start == index || (index - start < MAX_BATCH_IDS && Total(items[start..index + 1], cost) <= SQL_BATCH_BUDGET) ==>
              Allowed(items[start..index + 1], cost, SQL_LIMITS)
    ensures index - start >= MAX_BATCH_IDS || Total(items[start..index + 1], cost) > SQL_BATCH_BUDGET ==>
              ClosedBy(items[start..index], [items[index]], cost, SQL_LIMITS)
  {
    OneMore(items[start..index], items[index], cost, SQL_LIMITS);
    assert items[start..index + 1] == items[start..index] + [items[index]];
  }

  lemma ClosedByFirst<T>(chunk: seq<T>, open: seq<T>, x: T, cost: T -> nat, lim: Limits)
    requires open != [] && ClosedBy(chunk, open, cost, lim)
    ensures ClosedBy(chunk, open + [x], cost, lim)
  {
  }

  // Where the chunker stands: chunks closed so far, and the open one from `start` to `index`.
  ghost predicate Chunked<T>(items: seq<T>, chunks: seq<seq<T>>, start: nat, index: nat, cost: T -> nat) {
    && start <= index <= |items|
    && Flatten(chunks) == items[..start]
    && Packed(chunks, cost, SQL_LIMITS) && Eager(chunks, cost, SQL_LIMITS)
    && (start < index ==> Allowed(items[start..index], cost, SQL_LIMITS))
    && (start < index && chunks != [] ==> ClosedBy(chunks[|chunks| - 1], items[start..index], cost, SQL_LIMITS))
  }

  lemma JoinOpenChunk<T>(items: seq<T>, chunks: seq<seq<T>>, start: nat, index: nat, cost: T -> nat)
    requires Chunked(items, chunks, start, index, cost) && start < index < |items|
    requires index - start < MAX_BATCH_IDS && Total(items[start..index], cost) + cost(items[index]) <= SQL_BATCH_BUDGET
    ensures Chunked(items, chunks, start, index + 1, cost)
  {
    TakeItem(items, start, index, cost);
    if chunks != [] { ClosedByFirst(chunks[|chunks| - 1], items[start..index], items[index], cost, SQL_LIMITS); }
  }

  lemma OpenNextChunk<T>(items: seq<T>, chunks: seq<seq<T>>, start: nat, index: nat, cost: T -> nat)
    requires Chunked(items, chunks, start, index, cost) && start < index < |items|
    requires index - start >= MAX_BATCH_IDS || Total(items[start..index], cost) + cost(items[index]) > SQL_BATCH_BUDGET
    ensures Chunked(items, chunks + [items[start..index]], index, index + 1, cost)
  {
    TakeItem(items, start, index, cost);
    TakeItem(items, index, index, cost);
    PushChunk(chunks, items[start..index], cost, SQL_LIMITS);
    assert items[..index] == items[..start] + items[start..index];
    assert items[index..index + 1] == [items[index]];
  }

  lemma CloseLastChunk<T>(items: seq<T>, chunks: seq<seq<T>>, start: nat, cost: T -> nat)
    requires Chunked(items, chunks, start, |items|, cost) && start < |items|
    ensures Chunked(items, chunks + [items[start..]], |items|, |items|, cost)
  {
    assert items[start..] == items[start..|items|];
    PushChunk(chunks, items[start..], cost, SQL_LIMITS);
    assert items == items[..start] + items[start..];
    assert items[..|items|] == items;
  }

  method ChunkBySqlBytes<T>(items: seq<T>, cost: T -> nat) returns (chunks: seq<seq<T>>)
    ensures Flatten(chunks) == items
    ensures Packed(chunks, cost, SQL_LIMITS)
    ensures Eager(chunks, cost, SQL_LIMITS)
    // At most 500 items and 64 KiB a chunk, unless one item alone is more; and none is closed
    // while it has room for the next item.
    ensures forall k :: 0 <= k < |chunks| ==>
                          |chunks[k]| == 1 || (1 < |chunks[k]| <= 500 && Total(chunks[k], cost) <= 65536)
    ensures forall k :: 0 < k < |chunks| ==>
                          |chunks[k]| > 0 && (|chunks[k - 1]| >= 500 || Total(chunks[k - 1], cost) + cost(chunks[k][0]) > 65536)
  {
    chunks := [];
    var start, bytes := 0, 0;
    for index := 0 to |items|
      invariant Chunked(items, chunks, start, index, cost)
      invariant start == index ==> index == 0
      invariant bytes == Total(items[start..index], cost)
    {
      var c := cost(items[index]);
      TakeItem(items, start, index, cost);
      if index > start && (index - start >= MAX_BATCH_IDS || bytes + c > SQL_BATCH_BUDGET) {
        OpenNextChunk(items, chunks, start, index, cost);
        TakeItem(items, index, index, cost);
        chunks := chunks + [items[start..index]];
        start, bytes := index, 0;
      } else if start < index {
        JoinOpenChunk(items, chunks, start, index, cost);
      }
      bytes := bytes + c;
    }
    assert items[..|items|] == items;
    if start < |items| {
      CloseLastChunk(items, chunks, start, cost);
      chunks := chunks + [items[start..]];
    }
    forall k | 0 <= k < |chunks|
      ensures |chunks[k]| == 1 || (1 < |chunks[k]| <= 500 && Total(chunks[k], cost) <= 65536)
    {
      assert Allowed(chunks[k], cost, SQL_LIMITS);
    }
    forall k | 0 < k < |chunks|
      ensures |chunks[k]| > 0 && (|chunks[k - 1]| >= 500 || Total(chunks[k - 1], cost) + cost(chunks[k][0]) > 65536)
    {
      assert ClosedBy(chunks[k - 1], chunks[k], cost, SQL_LIMITS);
      OneMore(chunks[k - 1], chunks[k][0], cost, SQL_LIMITS);
    }
  }

  // ---- Statements ----

  function Join(parts: seq<string>, sep: string): string {
    if parts == [] then ""
    else if |parts| == 1 then parts[0]
    else parts[0] + sep + Join(parts[1..], sep)
  }

  // What `chunk_statements` charges a statement: its bytes and the newline after it.
  function StatementCost(s: string): nat { ByteLen(s) + 1 }

  // Joined length within `budget`; a joined batch is one newline shorter than its total.
  function StatementLimits(statements: seq<string>, budget: nat): Limits {
    Limits(|statements|, budget + 1)
  }

  lemma {:induction false} JoinedLength(parts: seq<string>)
    requires parts != []
    ensures ByteLen(Join(parts, "\n")) + 1 == Total(parts, StatementCost)
  {
    if |parts| > 1 {
      JoinedLength(parts[1..]);
      ByteLenConcat(parts[0] + "\n", Join(parts[1..], "\n"));
      ByteLenConcat(parts[0], "\n");
    }
  }

  // A batch respects the limits exactly when its joined text is within the budget.
  lemma BatchFits(group: seq<string>, statements: seq<string>, budget: nat)
    requires group != [] && |group| <= |statements|
    ensures Fits(group, StatementCost, StatementLimits(statements, budget)) <==> ByteLen(Join(group, "\n")) <= budget
  {
    JoinedLength(group);
  }

  predicate BatchWithin(batch: string, group: seq<string>, budget: nat) {
    batch == Join(group, "\n") && (ByteLen(batch) <= budget || |group| == 1)
  }

  predicate Rendered(batches: seq<string>, groups: seq<seq<string>>, budget: nat) {
    |batches| == |groups| && forall k :: 0 <= k < |batches| ==> BatchWithin(batches[k], groups[k], budget)
  }

  lemma PushBatch(batches: seq<string>, groups: seq<seq<string>>, current: seq<string>, statements: seq<string>, budget: nat)
    requires Rendered(batches, groups, budget)
    requires Allowed(current, StatementCost, StatementLimits(statements, budget)) && |current| <= |statements|
    ensures Rendered(batches + [Join(current, "\n")], groups + [current], budget)
  {
    BatchFits(current, statements, budget);
    var more, all := batches + [Join(current, "\n")], groups + [current];
    forall k | 0 <= k < |more| ensures BatchWithin(more[k], all[k], budget) {
      if k < |batches| { assert BatchWithin(batches[k], groups[k], budget); }
    }
  }

  // A statement joins the open batch, or opens a new one.
  lemma TakeStatement(current: seq<string>, s: string, statements: seq<string>, budget: nat)
    requires current == [] || |current| < |statements|
    ensures Total(current + [s], StatementCost) == Total(current, StatementCost) + ByteLen(s) + 1
    ensures current == [] || Total(current, StatementCost) + ByteLen(s) <= budget ==>
              Allowed(current + [s], StatementCost, StatementLimits(statements, budget))
    ensures current != [] && Total(current, StatementCost) + ByteLen(s) > budget ==>
              ClosedBy(current, [s], StatementCost, StatementLimits(statements, budget))
  {
    OneMore(current, s, StatementCost, StatementLimits(statements, budget));
  }

  // Where the batcher stands after `i` statements: batches closed so far, and the open one.
  ghost predicate Batching(
      statements: seq<string>, i: nat, batches: seq<string>, groups: seq<seq<string>>, current: seq<string>, budget: nat) {
    var lim := StatementLimits(statements, budget);
    && i <= |statements| && |current| <= i && (i > 0 ==> current != [])
    && Flatten(groups) + current == statements[..i]
    && Rendered(batches, groups, budget)
    && Packed(groups, StatementCost, lim) && Eager(groups, StatementCost, lim)
    && (current != [] ==> Allowed(current, StatementCost, lim))
    && (current != [] && groups != [] ==> ClosedBy(groups[|groups| - 1], current, StatementCost, lim))
  }

  lemma JoinBatch(
      statements: seq<string>, i: nat, batches: seq<string>, groups: seq<seq<string>>, current: seq<string>, budget: nat)
    requires Batching(statements, i, batches, groups, current, budget) && i < |statements|
    requires current == [] || Total(current, StatementCost) + ByteLen(statements[i]) <= budget
    ensures Batching(statements, i + 1, batches, groups, current + [statements[i]], budget)
  {
    TakeStatement(current, statements[i], statements, budget);
    assert statements[..i + 1] == statements[..i] + [statements[i]];
    assert Flatten(groups) + current + [statements[i]] == Flatten(groups) + (current + [statements[i]]);
    if current != [] && groups != [] {
      ClosedByFirst(groups[|groups| - 1], current, statements[i], StatementCost, StatementLimits(statements, budget));
    }
  }

  lemma CloseBatch(
      statements: seq<string>, i: nat, batches: seq<string>, groups: seq<seq<string>>, current: seq<string>, budget: nat)
    requires Batching(statements, i, batches, groups, current, budget) && i < |statements| && current != []
    requires Total(current, StatementCost) + ByteLen(statements[i]) > budget
    ensures Batching(statements, i + 1, batches + [Join(current, "\n")], groups + [current], [statements[i]], budget)
  {
    TakeStatement(current, statements[i], statements, budget);
    TakeStatement([], statements[i], statements, budget);
    assert [] + [statements[i]] == [statements[i]];
    assert statements[..i + 1] == statements[..i] + [statements[i]];
    PushChunk(groups, current, StatementCost, StatementLimits(statements, budget));
    PushBatch(batches, groups, current, statements, budget);
  }

  method ChunkStatements(statements: seq<string>, budget: nat) returns (batches: seq<string>, groups: seq<seq<string>>)
    ensures Flatten(groups) == statements
    ensures Rendered(batches, groups, budget)
    ensures Packed(groups, StatementCost, StatementLimits(statements, budget))
    ensures Eager(groups, StatementCost, StatementLimits(statements, budget))
    // No batch is closed while the next statement, after a newline, still fits.
    ensures |batches| == |groups|
    ensures forall k :: 0 < k < |groups| ==>
                          |groups[k]| > 0 && ByteLen(batches[k - 1]) + 1 + ByteLen(groups[k][0]) > budget
  {
    batches, groups := [], [];
    var current: seq<string>, currentLen := [], 0;
    for i := 0 to |statements|
      invariant Batching(statements, i, batches, groups, current, budget)
      invariant currentLen == Total(current, StatementCost)
    {
      var statement := statements[i];
      if current != [] && currentLen + ByteLen(statement) > budget {
        CloseBatch(statements, i, batches, groups, current, budget);
        batches, groups := batches + [Join(current, "\n")], groups + [current];
        current, currentLen := [], 0;
        assert [] + [statement] == [statement];
      } else {
        JoinBatch(statements, i, batches, groups, current, budget);
      }
      TotalConcat(current, [statement], StatementCost);
      currentLen := currentLen + ByteLen(statement) + 1;
      current := current + [statement];
    }
    assert statements[..|statements|] == statements;
    if current != [] {
      PushChunk(groups, current, StatementCost, StatementLimits(statements, budget));
      PushBatch(batches, groups, current, statements, budget);
      batches, groups := batches + [Join(current, "\n")], groups + [current];
    }
    FlattenedFit(groups);
    forall k | 0 < k < |groups|
      ensures |groups[k]| > 0 && ByteLen(batches[k - 1]) + 1 + ByteLen(groups[k][0]) > budget
    {
      assert Allowed(groups[k - 1], StatementCost, StatementLimits(statements, budget));
      assert ClosedBy(groups[k - 1], groups[k], StatementCost, StatementLimits(statements, budget));
      assert BatchWithin(batches[k - 1], groups[k - 1], budget);
      ClosedIsFull(groups[k - 1], groups[k][0], statements, budget);
    }
  }

  // A part and one more item beside it are no more than the whole.
  lemma {:induction false} FlattenedFit<T>(groups: seq<seq<T>>)
    ensures forall k :: 0 < k < |groups| && |groups[k]| > 0 ==> |groups[k - 1]| < |Flatten(groups)|
  {
    if |groups| > 1 {
      FlattenedFit(groups[1..]);
      assert groups[1..][0] == groups[1];
      assert Flatten(groups) == groups[0] + (groups[1] + Flatten(groups[2..])) by { assert groups[1..][1..] == groups[2..]; }
      forall k | 1 < k < |groups| && |groups[k]| > 0 ensures |groups[k - 1]| < |Flatten(groups)| {
        assert groups[1..][k - 1] == groups[k] && groups[1..][k - 2] == groups[k - 1];
      }
    }
  }

  lemma ClosedIsFull(group: seq<string>, next: string, statements: seq<string>, budget: nat)
    requires group != [] && |group| < |statements|
    requires !Fits(group + [next], StatementCost, StatementLimits(statements, budget))
    ensures ByteLen(Join(group, "\n")) + 1 + ByteLen(next) > budget
  {
    OneMore(group, next, StatementCost, StatementLimits(statements, budget));
    JoinedLength(group);
  }
}
