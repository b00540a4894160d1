/** Two walks over the same edges: the worklist of `begets_reachable` (db_migrate.rs), and the
    engine's recursive `UNION` query behind `reachable` and the migration's spot-check. */
module Reachability {
  import opened Wrappers
  import opened Tables
  import opened Text

  const CTE_MAX_RECURSION_DEPTH: nat := 1000

  predicate Step(edges: set<Edge>, kind: EdgeKind, from: string, to: string) {
    Edge(from, to, kind) in edges
  }

  // A walk: each node follows from the one before it by an edge of `kind`.
  predicate Walk(edges: set<Edge>, kind: EdgeKind, p: seq<string>) {
    p != [] && forall k :: 0 < k < |p| ==> Step(edges, kind, p[k - 1], p[k])
  }

  predicate WalkTo(edges: set<Edge>, kind: EdgeKind, root: string, n: string, p: seq<string>) {
    Walk(edges, kind, p) && p[0] == root && p[|p| - 1] == n
  }

  // `n` is at most `hops` edges away from `root`.
  ghost predicate Within(edges: set<Edge>, kind: EdgeKind, root: string, n: string, hops: nat) {
    exists p :: WalkTo(edges, kind, root, n, p) && |p| <= hops + 1
  }

  ghost predicate Reaches(edges: set<Edge>, kind: EdgeKind, root: string, n: string) {
    exists p :: WalkTo(edges, kind, root, n, p)
  }

  function Targets(edges: set<Edge>): set<string> { set e | e in edges :: e.to }

  lemma WalkOn(edges: set<Edge>, kind: EdgeKind, root: string, n: string, p: seq<string>, next: string)
    requires WalkTo(edges, kind, root, n, p) && Step(edges, kind, n, next)
    ensures WalkTo(edges, kind, root, next, p + [next])
  {
  }

  lemma ReachesOn(edges: set<Edge>, kind: EdgeKind, root: string, n: string, next: string)
    requires Reaches(edges, kind, root, n) && Step(edges, kind, n, next)
    ensures Reaches(edges, kind, root, next)
  {
    var p :| WalkTo(edges, kind, root, n, p);
    WalkOn(edges, kind, root, n, p, next);
  }

  // A set holding the root and closed under steps holds everything reachable.
  lemma {:induction false} ClosedHoldsWalks(edges: set<Edge>, kind: EdgeKind, closed: set<string>, p: seq<string>)
    requires Walk(edges, kind, p) && p[0] in closed
    requires forall e :: e in edges && e.kind == kind && e.from in closed ==> e.to in closed
    ensures p[|p| - 1] in closed
    decreases |p|
  {
    if |p| > 1 {
      var rest := p[..|p| - 1];
      ClosedHoldsWalks(edges, kind, closed, rest);
      assert Step(edges, kind, p[|p| - 2], p[|p| - 1]);
    }
  }

  function EdgeSet(edges: seq<Edge>): set<Edge> { set e | e in edges }

  lemma FewerOutside(universe: set<string>, had: set<string>, reached: set<string>)
    requires had <= reached <= universe
    ensures |universe - reached| <= |universe - had|
    ensures had != reached ==> |universe - reached| < |universe - had|
  {
    var a, b := universe - had, universe - reached;
    assert a == b + (reached - had);
    if had != reached {
      var x :| x in reached && x !in had;
      assert |reached - had| > 0;
    }
  }

  // The edges in `part` out of `current` have been followed; nothing else has changed.
  ghost predicate Followed(part: seq<Edge>, current: string, reached: set<string>) {
    forall e :: e in part && e.kind == Begets && e.from == current ==> e.to in reached
  }

  // Everything reached is expanded, except what waits in the frontier.
  ghost predicate Expanded(edges: seq<Edge>, reached: set<string>, frontier: seq<string>) {
    forall e :: e in edges && e.kind == Begets && e.from in reached && e.from !in frontier ==> e.to in reached
  }

  // One node taken off the frontier: every new target of its `begets` edges goes on.
  method Follow(current: string, edges: seq<Edge>, root: string, had: set<string>, rest: seq<string>)
    returns (reached: set<string>, frontier: seq<string>)
    requires current in had && forall n :: n in rest ==> n in had
    requires forall n :: n in had ==> Reaches(EdgeSet(edges), Begets, root, n)
    ensures had <= reached <= had + Targets(EdgeSet(edges)) && rest <= frontier
    ensures reached == had ==> frontier == rest
    ensures forall n :: n in reached ==> Reaches(EdgeSet(edges), Begets, root, n)
    ensures forall n :: n in frontier ==> n in reached
    ensures forall n :: n in reached ==> n in had || n in frontier
    ensures Followed(edges, current, reached)
  {
    reached, frontier := had, rest;
    for i := 0 to |edges|
      invariant had <= reached <= had + Targets(EdgeSet(edges)) && rest <= frontier
      invariant reached == had ==> frontier == rest
      invariant forall n :: n in reached ==> Reaches(EdgeSet(edges), Begets, root, n)
      invariant forall n :: n in frontier ==> n in reached
      invariant forall n :: n in reached ==> n in had || n in frontier
      invariant Followed(edges[..i], current, reached)
    {
      var edge := edges[i];
      assert edges[..i + 1] == edges[..i] + [edge];
      if edge.kind == Begets && edge.from == current && edge.to !in reached {
        assert edge in EdgeSet(edges);
        ReachesOn(EdgeSet(edges), Begets, root, current, edge.to);
        reached := reached + {edge.to};
        frontier := frontier + [edge.to];
      }
    }
    assert edges[..|edges|] == edges;
  }

  // The worklist: a last-in first-out frontier over a list of edges, cycles and all.
  method BegetsReachable(root: string, edges: seq<Edge>) returns (reached: set<string>)
    ensures forall n :: n in reached <==> Reaches(EdgeSet(edges), Begets, root, n)
  {
    ghost var universe := {root} + Targets(EdgeSet(edges));
    reached := {root};
    var frontier := [root];
    assert WalkTo(EdgeSet(edges), Begets, root, root, [root]);
    while frontier != []
      invariant root in reached && reached <= universe
      invariant forall n :: n in reached ==> Reaches(EdgeSet(edges), Begets, root, n)
      invariant forall n :: n in frontier ==> n in reached
      invariant Expanded(edges, reached, frontier)
      decreases |universe - reached|, |frontier|
    {
      var current := frontier[|frontier| - 1];
      ghost var before, had := frontier, reached;
      reached, frontier := Follow(current, edges, root, reached, frontier[..|frontier| - 1]);
      StillExpanded(edges, had, before, reached, frontier, current);
      FewerOutside(universe, had, reached);
    }
    forall n | Reaches(EdgeSet(edges), Begets, root, n) ensures n in reached {
      var p :| WalkTo(EdgeSet(edges), Begets, root, n, p);
      ClosedHoldsWalks(EdgeSet(edges), Begets, reached, p);
    }
  }

  lemma StillExpanded(edges: seq<Edge>, had: set<string>, before: seq<string>,
                      reached: set<string>, frontier: seq<string>, current: string)
    requires Expanded(edges, had, before) && before != [] && current == before[|before| - 1]
    requires had <= reached && before[..|before| - 1] <= frontier
    requires forall n :: n in reached ==> n in had || n in frontier
    requires Followed(edges, current, reached)
    ensures Expanded(edges, reached, frontier)
  {
    assert before == before[..|before| - 1] + [current];
    forall e | e in edges && e.kind == Begets && e.from in reached && e.from !in frontier ensures e.to in reached {
      assert e.from in had;
      assert e.from !in before[..|before| - 1];
    }
  }

  // ---- The recursive query ----

  // `CAST(root AS CHAR(64))`.
  function Cast(root: string): string { if |root| > ID_WIDTH then root[..ID_WIDTH] else root }

  // One round of the recursive member over the rows the round before produced.
  function Round(edges: set<Edge>, kind: EdgeKind, latest: set<string>): set<string> {
    set e | e in edges && e.kind == kind && e.from in latest :: e.to
  }

  // `UNION` drops rows already seen, and the query ends when a round adds none. It is
  // aborted if rounds that add rows go beyond `budget`.
  function Rounds(edges: set<Edge>, kind: EdgeKind, seen: set<string>, latest: set<string>, budget: nat): Option<set<string>>
    decreases budget
  {
    var next := Round(edges, kind, latest) - seen;
    if next == {} then Some(seen)
    else if budget == 0 then None
    else Rounds(edges, kind, seen + next, next, budget - 1)
  }

  function Cte(edges: set<Edge>, kind: EdgeKind, root: string, limit: nat): Option<set<string>> {
    Rounds(edges, kind, {Cast(root)}, {Cast(root)}, limit)
  }

  // After `k` rounds: `seen` is what lies within `k` hops, `latest` what lies at exactly `k`.
  ghost predicate AfterRounds(edges: set<Edge>, kind: EdgeKind, root: string, seen: set<string>, latest: set<string>, k: nat) {
    && (forall n :: n in seen <==> Within(edges, kind, root, n, k))
    && (forall n :: n in latest <==> n in seen && (k > 0 ==> !Within(edges, kind, root, n, k - 1)))
  }

  lemma WithinMore(edges: set<Edge>, kind: EdgeKind, root: string, n: string, k: nat)
    ensures Within(edges, kind, root, n, k + 1) <==>
            || Within(edges, kind, root, n, k)
            || exists m :: Within(edges, kind, root, m, k) && Step(edges, kind, m, n)
  {
    if Within(edges, kind, root, n, k + 1) {
      var p :| WalkTo(edges, kind, root, n, p) && |p| <= k + 2;
      if |p| == k + 2 && |p| > 1 {
        var q := p[..|p| - 1];
        assert WalkTo(edges, kind, root, q[|q| - 1], q);
        assert Within(edges, kind, root, q[|q| - 1], k);
        assert Step(edges, kind, p[|p| - 2], p[|p| - 1]);
      }
    }
    if exists m :: Within(edges, kind, root, m, k) && Step(edges, kind, m, n) {
      var m :| Within(edges, kind, root, m, k) && Step(edges, kind, m, n);
      var p :| WalkTo(edges, kind, root, m, p) && |p| <= k + 1;
      WalkOn(edges, kind, root, m, p, n);
    }
  }

  lemma RoundAdvances(edges: set<Edge>, kind: EdgeKind, root: string, seen: set<string>, latest: set<string>, k: nat)
    requires AfterRounds(edges, kind, root, seen, latest, k)
    ensures var next := Round(edges, kind, latest) - seen;
            AfterRounds(edges, kind, root, seen + next, next, k + 1)
  {
    var next := Round(edges, kind, latest) - seen;
    forall n ensures n in seen + next <==> Within(edges, kind, root, n, k + 1) {
      WithinMore(edges, kind, root, n, k);
      if n in next {
        var e :| e in edges && e.kind == kind && e.from in latest && e.to == n;
        assert Step(edges, kind, e.from, n);
      }
      if Within(edges, kind, root, n, k + 1) && n !in seen {
        var m :| Within(edges, kind, root, m, k) && Step(edges, kind, m, n);
        if k > 0 && Within(edges, kind, root, m, k - 1) {
          WithinMore(edges, kind, root, n, k - 1);
        }
        assert m in latest;
        assert Edge(m, n, kind) in edges;
      }
    }
  }

  lemma Start(edges: set<Edge>, kind: EdgeKind, root: string)
    ensures AfterRounds(edges, kind, root, {root}, {root}, 0)
  {
    assert WalkTo(edges, kind, root, root, [root]);
    forall n | Within(edges, kind, root, n, 0) ensures n == root {
      var p :| WalkTo(edges, kind, root, n, p) && |p| <= 1;
    }
  }

  lemma WithinGrows(edges: set<Edge>, kind: EdgeKind, root: string, n: string, k: nat, m: nat)
    requires k <= m && Within(edges, kind, root, n, k)
    ensures Within(edges, kind, root, n, m)
  {
  }

  // When a round adds nothing, nothing further away is reachable at all.
  lemma Saturated(edges: set<Edge>, kind: EdgeKind, root: string, seen: set<string>, latest: set<string>, k: nat)
    requires AfterRounds(edges, kind, root, seen, latest, k)
    requires Round(edges, kind, latest) <= seen
    ensures forall n :: n in seen <==> Reaches(edges, kind, root, n)
    ensures forall m: nat :: k <= m ==> NoDeeperThan(edges, kind, root, m)
  {
    RoundAdvances(edges, kind, root, seen, latest, k);
    assert Round(edges, kind, latest) - seen == {};
    assert seen + {} == seen;
    assert WalkTo(edges, kind, root, root, [root]);
    assert Within(edges, kind, root, root, k);
    forall e | e in edges && e.kind == kind && e.from in seen ensures e.to in seen {
      WithinMore(edges, kind, root, e.to, k);
      assert Step(edges, kind, e.from, e.to);
    }
    forall n | Reaches(edges, kind, root, n) ensures n in seen {
      var p :| WalkTo(edges, kind, root, n, p);
      ClosedHoldsWalks(edges, kind, seen, p);
    }
    forall m: nat, n | k <= m && Reaches(edges, kind, root, n) ensures Within(edges, kind, root, n, m) {
      WithinGrows(edges, kind, root, n, k, m);
    }
  }

  // Every node reachable from `root` lies within `limit` hops.
  ghost predicate NoDeeperThan(edges: set<Edge>, kind: EdgeKind, root: string, limit: nat) {
    forall n :: Reaches(edges, kind, root, n) ==> Within(edges, kind, root, n, limit)
  }

  lemma MoreLiesDeeper(edges: set<Edge>, kind: EdgeKind, root: string, seen: set<string>, next: set<string>, k: nat)
    requires AfterRounds(edges, kind, root, seen, next, k + 1) && next != {}
    ensures !NoDeeperThan(edges, kind, root, k)
  {
    var n :| n in next;
    var p :| WalkTo(edges, kind, root, n, p) && |p| <= k + 2;
  }

  lemma {:induction false} RoundsExact(edges: set<Edge>, kind: EdgeKind, root: string, seen: set<string>, latest: set<string>, k: nat, budget: nat)
    requires AfterRounds(edges, kind, root, seen, latest, k)
    ensures
      var r := Rounds(edges, kind, seen, latest, budget);
      && (r.Some? <==> NoDeeperThan(edges, kind, root, k + budget))
      && (r.Some? ==> forall n :: n in r.value <==> Reaches(edges, kind, root, n))
    decreases budget
  {
    var next := Round(edges, kind, latest) - seen;
    RoundAdvances(edges, kind, root, seen, latest, k);
    if next == {} {
      Saturated(edges, kind, root, seen, latest, k);
    } else if budget == 0 {
      MoreLiesDeeper(edges, kind, root, seen + next, next, k);
    } else {
      RoundsExact(edges, kind, root, seen + next, next, k + 1, budget - 1);
    }
  }

  // The query succeeds exactly when no reachable node is deeper than the limit, and then its
  // rows are exactly the reachable nodes.
  lemma CteIsReachability(edges: set<Edge>, kind: EdgeKind, root: string, limit: nat)
    requires |root| <= ID_WIDTH
    ensures Cte(edges, kind, root, limit).Some? <==> NoDeeperThan(edges, kind, root, limit)
    ensures Cte(edges, kind, root, limit).Some? ==>
              forall n :: n in Cte(edges, kind, root, limit).value <==> Reaches(edges, kind, root, n)
  {
    Start(edges, kind, root);
    RoundsExact(edges, kind, root, {root}, {root}, 0, limit);
  }

  lemma ReachedIsNarrow(edges: set<Edge>, root: string, n: string)
    requires forall e :: e in edges ==> |e.to| <= ID_WIDTH
    requires |root| <= ID_WIDTH && Reaches(edges, Begets, root, n)
    ensures |n| <= ID_WIDTH
  {
    var p :| WalkTo(edges, Begets, root, n, p);
    assert |p| == 1 || Step(edges, Begets, p[|p| - 2], p[|p| - 1]);
  }

  // The walk and the query agree on a root exactly when the query does not truncate it: every
  // id in the tables is within the column width.
  lemma WalkEqualsCte(edges: set<Edge>, root: string, limit: nat, walked: set<string>)
    requires forall e :: e in edges ==> |e.to| <= ID_WIDTH
    requires forall n :: n in walked <==> Reaches(edges, Begets, root, n)
    requires Cte(edges, Begets, root, limit).Some?
    ensures Cte(edges, Begets, root, limit).value == walked <==> |root| <= ID_WIDTH
  {
    var cast := Cast(root);
    if |root| <= ID_WIDTH {
      CteIsReachability(edges, Begets, root, limit);
    } else {
      assert WalkTo(edges, Begets, root, root, [root]);
      assert root in walked;
      Start(edges, Begets, cast);
      RoundsExact(edges, Begets, cast, {cast}, {cast}, 0, limit);
      if root in Cte(edges, Begets, root, limit).value { ReachedIsNarrow(edges, cast, root); }
    }
  }

  // The concrete disagreement: an isolated root one character too long is cut by the query.
  lemma LongRootIsCut()
    ensures
      var root := seq(ID_WIDTH + 1, _ => 'q');
      && Reaches({}, Begets, root, root)
      && Cte({}, Begets, root, CTE_MAX_RECURSION_DEPTH) == Some({root[..ID_WIDTH]})
      && root[..ID_WIDTH] != root
  {
    var root := seq(ID_WIDTH + 1, _ => 'q');
    assert WalkTo({}, Begets, root, root, [root]);
    assert Round({}, Begets, {Cast(root)}) == {};
  }

  // A chain of `n` edges, its nodes numbered from 0.
  function Link(k: nat): Edge { Edge(Decimal(k), Decimal(k + 1), Begets) }

  function Chain(n: nat): set<Edge> { set k: nat | k < n :: Link(k) }

  lemma {:induction false} ChainWalks(n: nat, p: seq<string>, j: nat)
    requires Walk(Chain(n), Begets, p) && p[0] == Decimal(0) && j < |p|
    ensures p[j] == Decimal(j)
    decreases j
  {
    if j > 0 {
      ChainWalks(n, p, j - 1);
      assert Step(Chain(n), Begets, p[j - 1], p[j]);
      var k: nat :| k < n && Link(k) == Edge(p[j - 1], p[j], Begets);
      DecimalInjective(k, j - 1);
    }
  }

  // The concrete abort: the end of a chain one hop longer than the limit is reachable, and the
  // query does not get there.
  lemma LongChainAborts(limit: nat)
    ensures Reaches(Chain(limit + 1), Begets, Decimal(0), Decimal(limit + 1))
    ensures Cte(Chain(limit + 1), Begets, Decimal(0), limit) == None
  {
    var n := limit + 1;
    var edges, p := Chain(n), seq(n + 1, k requires 0 <= k => Decimal(k));
    forall k | 0 < k < |p| ensures Step(edges, Begets, p[k - 1], p[k]) {
      assert k - 1 < n && Link(k - 1) in edges;
    }
    assert WalkTo(edges, Begets, Decimal(0), Decimal(n), p);
    if Within(edges, Begets, Decimal(0), Decimal(n), limit) {
      var q :| WalkTo(edges, Begets, Decimal(0), Decimal(n), q) && |q| <= limit + 1;
      ChainWalks(n, q, |q| - 1);
      DecimalInjective(|q| - 1, n);
    }
    CteIsReachability(edges, Begets, Decimal(0), limit);
  }
}
