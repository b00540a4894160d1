/** The store's set-based reads against the per-item reads they replace (dolt_store.rs, store.rs). */
module StoreReads {
  import opened Wrappers
  import opened Text
  import opened Tables
  import opened Chunking
  import opened SqlText
  import opened Ordering

  datatype NodeRecord = NodeRecord(id: string, node: Node)

  datatype ReadError = NotFound(id: string)

  // ---- The engine ----

  // `SELECT .. FROM nodes WHERE id IN (..)`: the rows there are, in no particular order.
  method SelectNodes(g: Graph, ids: seq<string>) returns (rows: seq<NodeRecord>)
    ensures forall r :: r in rows <==> r.id in ids && r.id in g.nodes && r.node == g.nodes[r.id]
  {
    rows := [];
    for i := 0 to |ids|
      invariant forall r :: r in rows <==> r.id in ids[..i] && r.id in g.nodes && r.node == g.nodes[r.id]
    {
      assert ids[..i + 1] == ids[..i] + [ids[i]];
      if ids[i] in g.nodes { rows := [NodeRecord(ids[i], g.nodes[ids[i]])] + rows; }
    }
    assert ids[..|ids|] == ids;
  }

  ghost predicate Selected(g: Graph, froms: seq<string>, kind: EdgeKind, r: Row) {
    r.from in froms && Edge(r.from, r.to, kind) in g.edges && r.at == g.edges[Edge(r.from, r.to, kind)]
  }

  // `SELECT .. FROM edges WHERE from_id IN (..) AND kind = .. ORDER BY from_id, created_at, to_id`.
  method SelectEdges(g: Graph, froms: seq<string>, kind: EdgeKind) returns (rows: seq<Row>)
    ensures Sorted(rows)
    ensures forall r :: r in rows <==> Selected(g, froms, kind, r)
  {
    var left := set e | e in g.edges && e.kind == kind && e.from in froms :: Row(e.from, g.edges[e], e.to);
    assert forall r :: r in left <==> Selected(g, froms, kind, r) by {
      forall r | Selected(g, froms, kind, r) ensures r in left {
        var e := Edge(r.from, r.to, kind);
        assert e in g.edges && Row(e.from, g.edges[e], e.to) == r;
      }
    }
    ghost var all := left;
    rows := [];
    while left != {}
      invariant Sorted(rows)
      invariant forall r :: r in all <==> r in rows || r in left
      invariant forall i, r :: 0 <= i < |rows| && r in left ==> Before(rows[i], r)
      decreases |left|
    {
      ghost var f := FirstExists(left);
      var first :| first in left && forall r :: r in left ==> r == first || Before(first, r);
      forall r | r in left - {first} ensures Before(first, r) { }
      rows := rows + [first];
      left := left - {first};
    }
  }

  // ---- Nodes ----

  function FetchNode(g: Graph, id: string): Result<NodeRecord, ReadError> {
    if id in g.nodes then Success(NodeRecord(id, g.nodes[id])) else Failure(NotFound(id))
  }

  // The per-item loop: every record in the order asked for, or the first id that has none.
  function FetchLoop(g: Graph, ids: seq<string>): Result<seq<NodeRecord>, ReadError> {
    if ids == [] then Success([])
    else
      match FetchLoop(g, ids[..|ids| - 1])
      case Failure(e) => Failure(e)
      case Success(records) =>
        match FetchNode(g, ids[|ids| - 1])
        case Failure(e) => Failure(e)
        case Success(record) => Success(records + [record])
  }

  // The lenient loop: an absent id is skipped.
  function PresentLoop(g: Graph, ids: seq<string>): seq<NodeRecord> {
    if ids == [] then []
    else
      PresentLoop(g, ids[..|ids| - 1]) +
      (match FetchNode(g, ids[|ids| - 1]) case Failure(_) => [] case Success(record) => [record])
  }

  function IdListBytes(id: string): nat { ByteLen(Quoted(id)) + 2 }

  // The bytes charged for the ids are the bytes of their list, and the one separator it saves.
  lemma {:induction false} IdListLength(ids: seq<string>)
    requires ids != []
    ensures ByteLen(SqlIdList(ids)) + 2 == Total(ids, IdListBytes)
  {
    SqlIdListCons(ids);
    if |ids| > 1 {
      IdListLength(ids[1..]);
      ByteLenConcat(Quoted(ids[0]) + ", ", SqlIdList(ids[1..]));
      ByteLenConcat(Quoted(ids[0]), ", ");
    }
  }

  method Distinct(ids: seq<string>) returns (distinct: seq<string>)
    ensures forall id :: id in distinct <==> id in ids
    ensures NoRepeats(distinct)
  {
    distinct := [];
    for i := 0 to |ids|
      invariant forall id :: id in distinct <==> id in ids[..i]
      invariant NoRepeats(distinct)
    {
      assert ids[..i + 1] == ids[..i] + [ids[i]];
      if ids[i] !in distinct { distinct := distinct + [ids[i]]; }
    }
    assert ids[..|ids|] == ids;
  }

  function Lookup(g: Graph, ids: seq<string>): map<string, NodeRecord> {
    map id | id in ids && id in g.nodes :: NodeRecord(id, g.nodes[id])
  }

  // One query, its rows entered by id.
  method AddRows(g: Graph, chunk: seq<string>, before: map<string, NodeRecord>) returns (found: map<string, NodeRecord>)
    ensures found == before + Lookup(g, chunk)
  {
    found := before;
    var rows := SelectNodes(g, chunk);
    for i := 0 to |rows|
      invariant found.Keys == before.Keys + set r | r in rows[..i] :: r.id
      invariant forall id :: id in found ==>
                               || (id in chunk && id in g.nodes && found[id] == NodeRecord(id, g.nodes[id]))
                               || (id in before && found[id] == before[id] && forall r :: r in rows[..i] ==> r.id != id)
    {
      assert rows[..i + 1] == rows[..i] + [rows[i]];
      assert rows[i] in rows;
      found := found[rows[i].id := rows[i]];
    }
    assert rows[..|rows|] == rows;
    forall id | id in chunk && id in g.nodes ensures id in found && found[id] == NodeRecord(id, g.nodes[id]) {
      assert NodeRecord(id, g.nodes[id]) in rows;
    }
  }

  lemma LookupConcat(g: Graph, a: seq<string>, b: seq<string>)
    ensures Lookup(g, a + b) == Lookup(g, a) + Lookup(g, b)
  {
  }

  // The rows behind `ids`, by id: one query a chunk.
  method FoundNodes(g: Graph, ids: seq<string>) returns (found: map<string, NodeRecord>)
    ensures found == Lookup(g, ids)
  {
    var distinct := Distinct(ids);
    var chunks := ChunkBySqlBytes(distinct, IdListBytes);
    found := map[];
    assert chunks[..|chunks|] == chunks;
    for k := 0 to |chunks|
      invariant found == Lookup(g, Flatten(chunks[..k]))
    {
      assert chunks[..k + 1] == chunks[..k] + [chunks[k]];
      FlattenAppend(chunks[..k], chunks[k]);
      LookupConcat(g, Flatten(chunks[..k]), chunks[k]);
      found := AddRows(g, chunks[k], found);
    }
  }

  // One batched read is the loop, to the order, the repeats and the id it fails on.
  method FetchNodes(g: Graph, ids: seq<string>) returns (r: Result<seq<NodeRecord>, ReadError>)
    ensures r == FetchLoop(g, ids)
  {
    if ids == [] { return Success([]); }
    var found := FoundNodes(g, ids);
    var records := [];
    for i := 0 to |ids|
      invariant FetchLoop(g, ids[..i]) == Success(records)
    {
      assert ids[..i + 1][..i] == ids[..i];
      if ids[i] !in found {
        FetchLoopFails(g, ids, i);
        return Failure(NotFound(ids[i]));
      }
      records := records + [found[ids[i]]];
    }
    assert ids[..|ids|] == ids;
    return Success(records);
  }

  // The id it fails on is the first that is absent.
  lemma {:induction false} FetchLoopFails(g: Graph, ids: seq<string>, i: nat)
    requires i < |ids| && FetchLoop(g, ids[..i]).Success? && ids[i] !in g.nodes
    ensures FetchLoop(g, ids) == Failure(NotFound(ids[i]))
    decreases |ids|
  {
    var rest := ids[..|ids| - 1];
    if i < |ids| - 1 {
      assert rest[..i] == ids[..i];
      FetchLoopFails(g, rest, i);
    } else {
      assert rest == ids[..i];
    }
  }

  method FetchNodesPresent(g: Graph, ids: seq<string>) returns (records: seq<NodeRecord>)
    ensures records == PresentLoop(g, ids)
  {
    if ids == [] { return []; }
    var found := FoundNodes(g, ids);
    records := [];
    for i := 0 to |ids|
      invariant records == PresentLoop(g, ids[..i])
    {
      assert ids[..i + 1][..i] == ids[..i];
      if ids[i] in found { records := records + [found[ids[i]]]; }
    }
    assert ids[..|ids|] == ids;
  }

  // The strict read succeeds exactly when nothing asked for is absent, and then it is the
  // lenient one.
  lemma {:induction false} StrictIsLenient(g: Graph, ids: seq<string>)
    ensures FetchLoop(g, ids).Success? <==> forall id :: id in ids ==> id in g.nodes
    ensures FetchLoop(g, ids).Success? ==> FetchLoop(g, ids).value == PresentLoop(g, ids)
    decreases |ids|
  {
    if ids != [] {
      StrictIsLenient(g, ids[..|ids| - 1]);
      assert ids == ids[..|ids| - 1] + [ids[|ids| - 1]];
    }
  }

  // ---- Edges ----

  // The targets of one source, as rows to sort on.
  function TargetRow(g: Graph, id: string, kind: EdgeKind, to: string): Row
    requires Edge(id, to, kind) in g.edges
  {
    Row(id, g.edges[Edge(id, to, kind)], to)
  }

  // Oldest edge first, ties by target id, each target once.
  ghost predicate IsNeighbors(g: Graph, id: string, kind: EdgeKind, targets: seq<string>) {
    && (forall to :: to in targets <==> Edge(id, to, kind) in g.edges)
    && (forall i, j :: 0 <= i < j < |targets| ==>
          || g.edges[Edge(id, targets[i], kind)] < g.edges[Edge(id, targets[j], kind)]
          || (g.edges[Edge(id, targets[i], kind)] == g.edges[Edge(id, targets[j], kind)]
              && Less(targets[i], targets[j])))
  }

  // That determines the answer.
  lemma NeighborsAreDetermined(g: Graph, id: string, kind: EdgeKind, a: seq<string>, b: seq<string>)
    requires IsNeighbors(g, id, kind, a) && IsNeighbors(g, id, kind, b)
    ensures a == b
  {
    var ra := TargetRows(g, id, kind, a);
    var rb := TargetRows(g, id, kind, b);
    forall r ensures r in ra <==> r in rb {
      if r in ra { assert r.to in a; assert r.to in b; var k :| 0 <= k < |b| && b[k] == r.to; assert rb[k] == r; }
      if r in rb { assert r.to in b; assert r.to in a; var k :| 0 <= k < |a| && a[k] == r.to; assert ra[k] == r; }
    }
    SortedIsUnique(ra, rb);
    assert |a| == |b|;
    forall k | 0 <= k < |a| ensures a[k] == b[k] { assert ra[k].to == rb[k].to; }
  }

  // Of two targets of one source the query puts the older edge first, ties by target id.
  lemma OldestFirst(g: Graph, id: string, kind: EdgeKind, a: string, b: string)
    requires Edge(id, a, kind) in g.edges && Edge(id, b, kind) in g.edges
    ensures Before(TargetRow(g, id, kind, a), TargetRow(g, id, kind, b)) <==>
              || g.edges[Edge(id, a, kind)] < g.edges[Edge(id, b, kind)]
              || (g.edges[Edge(id, a, kind)] == g.edges[Edge(id, b, kind)] && Less(a, b))
  {
    LessIsStrict(id);
  }

  ghost function TargetRows(g: Graph, id: string, kind: EdgeKind, targets: seq<string>): (rows: seq<Row>)
    requires IsNeighbors(g, id, kind, targets)
    ensures |rows| == |targets| && Sorted(rows)
    ensures forall k :: 0 <= k < |rows| ==> rows[k] == TargetRow(g, id, kind, targets[k])
    ensures forall r :: r in rows ==> r.to in targets && r == TargetRow(g, id, kind, r.to)
  {
    assert forall k :: 0 <= k < |targets| ==> targets[k] in targets;
    var rows := seq(|targets|, k requires 0 <= k < |targets| => (assert targets[k] in targets; TargetRow(g, id, kind, targets[k])));
    assert Sorted(rows) by {
      forall i, j | 0 <= i < j < |rows| ensures Before(rows[i], rows[j]) { OldestFirst(g, id, kind, targets[i], targets[j]); }
    }
    rows
  }

  method Neighbors(g: Graph, id: string, kind: EdgeKind) returns (targets: seq<string>)
    ensures IsNeighbors(g, id, kind, targets)
  {
    var rows := SelectEdges(g, [id], kind);
    targets := [];
    for i := 0 to |rows|
      invariant Gathered(g, id, kind, rows[..i], targets)
    {
      assert rows[i] in rows;
      GatherOne(g, id, kind, rows, i, targets);
      targets := targets + [rows[i].to];
    }
    assert rows[..|rows|] == rows;
    GatheredAll(g, [id], id, kind, rows, targets);
  }

  // `targets` are the targets of `id` among `rows`, in the order of `rows`.
  ghost predicate Gathered(g: Graph, id: string, kind: EdgeKind, rows: seq<Row>, targets: seq<string>) {
    && (forall to :: to in targets ==> Edge(id, to, kind) in g.edges && TargetRow(g, id, kind, to) in rows)
    && (forall r :: r in rows && r.from == id ==> r.to in targets)
    && (forall i, j :: 0 <= i < j < |targets| ==>
          Before(TargetRow(g, id, kind, targets[i]), TargetRow(g, id, kind, targets[j])))
  }

  lemma GatherOne(g: Graph, id: string, kind: EdgeKind, rows: seq<Row>, i: nat, targets: seq<string>)
    requires i < |rows| && Sorted(rows) && Gathered(g, id, kind, rows[..i], targets)
    requires Edge(rows[i].from, rows[i].to, kind) in g.edges
    requires rows[i].at == g.edges[Edge(rows[i].from, rows[i].to, kind)]
    ensures rows[i].from == id ==> Gathered(g, id, kind, rows[..i + 1], targets + [rows[i].to])
    ensures rows[i].from != id ==> Gathered(g, id, kind, rows[..i + 1], targets)
  {
    assert rows[..i + 1] == rows[..i] + [rows[i]];
    if rows[i].from == id {
      var more := targets + [rows[i].to];
      forall a, b | 0 <= a < b < |more|
        ensures Before(TargetRow(g, id, kind, more[a]), TargetRow(g, id, kind, more[b]))
      {
        if b == |targets| {
          var k :| 0 <= k < i && rows[k] == TargetRow(g, id, kind, targets[a]);
        }
      }
    }
  }

  lemma GatheredAll(g: Graph, froms: seq<string>, id: string, kind: EdgeKind, rows: seq<Row>, targets: seq<string>)
    requires id in froms && Gathered(g, id, kind, rows, targets)
    requires forall r :: r in rows <==> Selected(g, froms, kind, r)
    ensures IsNeighbors(g, id, kind, targets)
  {
    forall to | Edge(id, to, kind) in g.edges ensures to in targets {
      assert Selected(g, froms, kind, TargetRow(g, id, kind, to));
    }
    forall i, j | 0 <= i < j < |targets|
      ensures || g.edges[Edge(id, targets[i], kind)] < g.edges[Edge(id, targets[j], kind)]
              || (g.edges[Edge(id, targets[i], kind)] == g.edges[Edge(id, targets[j], kind)]
                  && Less(targets[i], targets[j]))
    {
      OldestFirst(g, id, kind, targets[i], targets[j]);
    }
  }

  // Every source of the list is answered, each exactly as its own read would answer it.
  method NeighborsMany(g: Graph, ids: seq<string>, kind: EdgeKind) returns (targets: map<string, seq<string>>)
    ensures targets.Keys == set id | id in ids
    ensures forall id :: id in targets ==> IsNeighbors(g, id, kind, targets[id])
  {
    targets := map id | id in ids :: [];
    var distinct := Distinct(ids);
    var chunks := ChunkBySqlBytes(distinct, IdListBytes);
    assert chunks[..|chunks|] == chunks;
    for k := 0 to |chunks|
      invariant targets.Keys == set id | id in ids
      invariant forall id :: id in Flatten(chunks[..k]) ==> id in targets && IsNeighbors(g, id, kind, targets[id])
      invariant forall id :: id in targets && id !in Flatten(chunks[..k]) ==> targets[id] == []
    {
      ghost var before := targets;
      ChunkIsNew(distinct, chunks, k);
      targets := AddChunk(g, chunks[k], kind, targets);
      assert chunks[..k + 1] == chunks[..k] + [chunks[k]];
      FlattenAppend(chunks[..k], chunks[k]);
    }
  }

  // The ids of one chunk, answered by one query.
  method AddChunk(g: Graph, chunk: seq<string>, kind: EdgeKind, before: map<string, seq<string>>)
    returns (targets: map<string, seq<string>>)
    requires forall id :: id in chunk ==> id in before && before[id] == []
    ensures targets.Keys == before.Keys
    ensures forall id :: id in chunk ==> IsNeighbors(g, id, kind, targets[id])
    ensures forall id :: id in before && id !in chunk ==> targets[id] == before[id]
  {
    targets := before;
    var rows := SelectEdges(g, chunk, kind);
    for i := 0 to |rows|
      invariant targets.Keys == before.Keys
      invariant forall id :: id in chunk ==> Gathered(g, id, kind, rows[..i], targets[id])
      invariant forall id :: id in before && id !in chunk ==> targets[id] == before[id]
    {
      assert rows[i] in rows;
      var from, to := rows[i].from, rows[i].to;
      forall id | id in chunk
        ensures Gathered(g, id, kind, rows[..i + 1], if id == from then targets[id] + [to] else targets[id])
      {
        GatherOne(g, id, kind, rows, i, targets[id]);
      }
      if from in targets { targets := targets[from := targets[from] + [to]]; }
    }
    assert rows[..|rows|] == rows;
    forall id | id in chunk ensures IsNeighbors(g, id, kind, targets[id]) {
      GatheredAll(g, chunk, id, kind, rows, targets[id]);
    }
  }

  lemma PartsAreDisjoint(all: seq<string>, head: seq<string>, part: seq<string>, rest: seq<string>)
    requires all == head + part + rest && NoRepeats(all)
    ensures forall id :: id in part ==> id in all && id !in head
  {
    forall i, j | 0 <= i < |head| && 0 <= j < |part| ensures head[i] != part[j] {
      assert all[i] == head[i] && all[|head| + j] == part[j];
    }
  }

  lemma ChunkIsNew(distinct: seq<string>, chunks: seq<seq<string>>, k: nat)
    requires k < |chunks| && Flatten(chunks) == distinct && NoRepeats(distinct)
    ensures forall id :: id in chunks[k] ==> id in distinct && id !in Flatten(chunks[..k])
  {
    FlattenSplit(chunks, k);
    var rest :| Flatten(chunks) == Flatten(chunks[..k]) + chunks[k] + rest;
    PartsAreDisjoint(distinct, Flatten(chunks[..k]), chunks[k], rest);
  }

  lemma {:induction false} FlattenSplit(chunks: seq<seq<string>>, k: nat)
    requires k < |chunks|
    ensures exists rest :: Flatten(chunks) == Flatten(chunks[..k]) + chunks[k] + rest
    decreases k
  {
    if k == 0 {
      assert Flatten(chunks) == Flatten(chunks[..0]) + chunks[0] + Flatten(chunks[1..]);
    } else {
      FlattenSplit(chunks[1..], k - 1);
      var rest :| Flatten(chunks[1..]) == Flatten(chunks[1..][..k - 1]) + chunks[k] + rest;
      assert chunks[..k][1..] == chunks[1..][..k - 1];
      assert Flatten(chunks) == Flatten(chunks[..k]) + chunks[k] + rest;
    }
  }
}
