/** What the writer stores is what the route graph shows. */
module TraceRoutes {
  import opened HopGraph
  import opened HopParsing
  import Janitor
  import opened RouteTraversal
  import opened Sequences
  import opened Topology
  import opened TopologyWriter
  import opened Wrappers

  /** The nodes and the NEXT_HOP and IN_AS edges the route traversal queries. */
  function RouteView(g: Graph): Snapshot {
    Snapshot(g.ips.Keys, map k | k in g.nextHop :: g.nextHop[k].lastSeen, g.inAS)
  }

  lemma RouteViewIsValid(g: Graph)
    requires NoDangling(g)
    ensures RouteView(g).Valid() && RouteView(g).Edges() == g.nextHop.Keys
  {
    assert RouteView(g).lastSeen.Keys == g.nextHop.Keys;
  }

  /** Whatever records are written, no relationship dangles and no probe lags behind its measurements. */
  lemma {:induction false} WritesKeepShape(asn: string -> Option<AsInfo>, g: Graph, rs: seq<Record>)
    requires Dominated(g) && NoDangling(g)
    ensures Dominated(ApplyEach(asn, g, rs)) && NoDangling(ApplyEach(asn, g, rs))
    decreases |rs|
  {
    if rs != [] {
      WritesKeepShape(asn, g, rs[..|rs| - 1]);
      match RecordOps(asn, rs[|rs| - 1])
      case None =>
      case Some(ops) => FlushKeepsShape(ApplyEach(asn, g, rs[..|rs| - 1]), ops);
    }
  }

  lemma EmptyIsSound(asn: string -> Option<AsInfo>)
    ensures Dominated(EMPTY_GRAPH) && NoDangling(EMPTY_GRAPH) && FollowsLookup(asn, EMPTY_GRAPH)
  {
  }

  /** Pruning only takes IN_AS relationships away. */
  lemma {:induction false} PruningFollowsLookup(asn: string -> Option<AsInfo>, g: Graph,
                                                removed: seq<set<Janitor.Item>>)
    requires FollowsLookup(asn, g)
    ensures FollowsLookup(asn, Janitor.Pruned(g, removed))
    decreases |removed|
  {
    if removed != [] {
      PruningFollowsLookup(asn, g, removed[..|removed| - 1]);
    }
  }

  // ---- every address belongs to one AS ------------------------------------------------------------------

  /** All writes of the run are looked up in the same database. */
  ghost predicate WritesFollow(asn: string -> Option<AsInfo>, steps: seq<Janitor.Step>) {
    forall i :: 0 <= i < |steps| && steps[i].Write? ==> QueryFollows(asn, steps[i].q)
  }

  /** The queries of all flushes of the writer are such writes. */
  lemma FlushesAreLookedUp(asn: string -> Option<AsInfo>, rs: seq<Record>, bs: seq<Batch>, pending: Batch)
    requires Joined(bs).Plus(pending) == AllOps(asn, rs)
    ensures forall b, q :: b in bs && q in FlushQueries(b) ==> QueryFollows(asn, q)
  {
    AllOpsAreLookedUp(asn, rs);
    JoinedAreLookedUp(asn, bs, pending);
    forall b, q | b in bs && q in FlushQueries(b)
      ensures QueryFollows(asn, q)
    {
      FlushQueriesFollow(asn, b);
    }
  }

  /** In every run of looked-up writes and prune batches, every address belongs to the AS of the lookup. */
  lemma {:induction false} RunFollowsLookup(asn: string -> Option<AsInfo>, gs: seq<Graph>,
                                            steps: seq<Janitor.Step>, i: nat)
    requires Janitor.IsRun(gs, steps) && WritesFollow(asn, steps) && i < |gs|
    ensures FollowsLookup(asn, gs[i])
    decreases i
  {
    if i == 0 {
      EmptyIsSound(asn);
    } else {
      RunFollowsLookup(asn, gs, steps, i - 1);
      assert gs[i - 1 + 1] == Janitor.Effect(gs[i - 1], steps[i - 1]);
      match steps[i - 1]
      case Write(q) => ExecuteFollows(asn, gs[i - 1], q);
      case Delete(_, _, _) =>
    }
  }

  /** So a route graph taken at any moment of such a run lists every node once and keeps to the node limit. */
  lemma RunNodesAreListedOnce(asn: string -> Option<AsInfo>, gs: seq<Graph>, steps: seq<Janitor.Step>, i: nat,
                              seed: string, maxDepth: nat, nodeLimit: nat, out: RouteGraph)
    requires Janitor.IsRun(gs, steps) && WritesFollow(asn, steps) && i < |gs|
    requires IsExactGraph(RouteView(gs[i]), seed, maxDepth, nodeLimit, out)
    ensures EachAddrOnce(out.nodes) && |out.nodes| <= nodeLimit
  {
    RunFollowsLookup(asn, gs, steps, i);
    LookupGivesOneAS(asn, gs[i], Addrs(out.nodes));
    NodesAreListedOnceExactly(RouteView(gs[i]), seed, maxDepth, nodeLimit, out);
  }

  /** The route graph of a graph the writer filled, whichever flushes failed, lists every node once. */
  lemma WrittenNodesAreListedOnce(asn: string -> Option<AsInfo>, rs: seq<Record>, tries: seq<Attempt>, pending: Batch,
                                  seed: string, maxDepth: nat, nodeLimit: nat, out: RouteGraph)
    requires Joined(Batches(tries)).Plus(pending) == AllOps(asn, rs)
    requires IsExactGraph(RouteView(Tried(EMPTY_GRAPH, tries)), seed, maxDepth, nodeLimit, out)
    ensures EachAddrOnce(out.nodes) && |out.nodes| <= nodeLimit
  {
    var g := Tried(EMPTY_GRAPH, tries);
    EmptyIsSound(asn);
    AttemptsKeep(asn, EMPTY_GRAPH, tries, pending, rs);
    LookupGivesOneAS(asn, g, Addrs(out.nodes));
    NodesAreListedOnceExactly(RouteView(g), seed, maxDepth, nodeLimit, out);
  }

  /** An address written twice, and the AS database gave it another AS the second time. */
  const MOVED := UpsertInAS(UpsertInAS(EMPTY_GRAPH, [InASOp("a", 1, "")]), [InASOp("a", 2, "")])

  lemma MovedTables()
    ensures RouteView(MOVED).inAS == {("a", 1), ("a", 2)} && RouteView(MOVED).Edges() == {}
  {
    FoldOne(LinkInAS, EMPTY_GRAPH.inAS, InASOp("a", 1, ""));
    FoldOne(LinkInAS, {("a", 1)}, InASOp("a", 2, ""));
  }

  lemma {:induction false} AloneWithoutEdges(edges: set<Edge>, seed: string, n: nat)
    requires edges == {}
    ensures Ball(edges, seed, n) == {seed}
  {
    if n > 0 {
      AloneWithoutEdges(edges, seed, n - 1);
    }
  }

  /** Its one node is then listed twice, at any limits; with a node limit of 1 that is more than the limit. */
  lemma MovedAddressIsListedTwice(maxDepth: nat, nodeLimit: nat, out: RouteGraph)
    requires nodeLimit > 0 && IsExactGraph(RouteView(MOVED), "a", maxDepth, nodeLimit, out)
    ensures !EachAddrOnce(out.nodes) && |out.nodes| == 2
    ensures nodeLimit == 1 ==> |out.nodes| > nodeLimit
  {
    MovedIsExplored(maxDepth);
    var g := RouteView(MOVED);
    TwoASesAreListed(g, "a", maxDepth, nodeLimit, out);
  }

  lemma TwoASesAreListed(g: Snapshot, seed: string, maxDepth: nat, nodeLimit: nat, out: RouteGraph)
    requires Explored(g.Edges(), seed, maxDepth) == {seed} && !OneASEach(g, {seed})
    requires |NodeRows(g, {seed})| == 2
    requires nodeLimit > 0 && IsExactGraph(g, seed, maxDepth, nodeLimit, out)
    ensures !EachAddrOnce(out.nodes) && |out.nodes| == 2
  {
    NodesAreListedOnceExactly(g, seed, maxDepth, nodeLimit, out);
    ListedRowsExactly(g, seed, maxDepth, nodeLimit, out);
  }

  lemma MovedIsExplored(n: nat)
    ensures Explored(RouteView(MOVED).Edges(), "a", n) == {"a"}
    ensures !OneASEach(RouteView(MOVED), {"a"}) && |NodeRows(RouteView(MOVED), {"a"})| == 2
  {
    MovedTables();
    MovedRows();
    assert ("a", Some(1)) != ("a", Some(2));
    AloneWithoutEdges({}, "a", n);
    assert Flip({}) == {};
  }

  lemma MovedRows()
    ensures var g := RouteView(MOVED);
      !OneASEach(g, {"a"}) && NodeRows(g, {"a"}) == {("a", Some(1)), ("a", Some(2))}
  {
    MovedTables();
    var g := RouteView(MOVED);
    var k, l := ("a", 1), ("a", 2);
    assert k in g.inAS && l in g.inAS && k != l;
    assert HasAS(g, "a");
  }

  lemma LookupGivesOneAS(asn: string -> Option<AsInfo>, g: Graph, ids: set<string>)
    requires FollowsLookup(asn, g)
    ensures OneASEach(RouteView(g), ids)
  {
    forall k, l | k in g.inAS && l in g.inAS && k.0 == l.0
      ensures k == l
    {
      assert k.1 == LookupASN(asn, k.0).number && l.1 == LookupASN(asn, l.0).number;
    }
  }

  /**
    * End to end, for the graph that a stopped writer leaves behind when no flush failed, `done` being the
    * batches it flushed: wherever their boundaries fell, a route graph around the first hop of a written
    * traceroute that claims to be complete shows its last hop too.
    */
  lemma CompleteRouteShowsTrace(asn: string -> Option<AsInfo>, rs: seq<Record>, done: seq<Batch>, i: nat,
                                maxDepth: nat, nodeLimit: nat, out: RouteGraph)
    requires Joined(done).Plus(EMPTY_BATCH) == AllOps(asn, rs)
    requires i < |rs| && rs[i].kind == "traceroute" && rs[i].trace.Some?
    requires |ResponsiveHops(rs[i].trace.value)| > 0 && maxDepth > 0
    requires var g, first := FlushedAll(EMPTY_GRAPH, done), ResponsiveHops(rs[i].trace.value)[0].addr;
      first in g.ips && IsExactGraph(RouteView(g), first, maxDepth, nodeLimit, out)
    ensures var hops := ResponsiveHops(rs[i].trace.value);
      out.complete ==> hops[|hops| - 1].addr in Addrs(out.nodes)
  {
    var g := FlushedAll(EMPTY_GRAPH, done);
    EmptyIsSound(asn);
    Finished(asn, EMPTY_GRAPH, done, EMPTY_BATCH, rs);
    TracesStayReachable(asn, EMPTY_GRAPH, rs, i);
    var hops := ResponsiveHops(rs[i].trace.value);
    ReachedIsShown(g, hops[0].addr, hops[|hops| - 1].addr, maxDepth, nodeLimit, out);
  }

  /** The same when flushes failed, for every traceroute whose own operations took effect. */
  lemma CompleteRouteShowsWrittenTrace(asn: string -> Option<AsInfo>, tries: seq<Attempt>, r: Record,
                                       maxDepth: nat, nodeLimit: nat, out: RouteGraph)
    requires r.kind == "traceroute" && r.trace.Some? && |ResponsiveHops(r.trace.value)| > 0 && maxDepth > 0
    requires forall op :: op in RecordOps(asn, r).value.nextHops ==> op in HopsWritten(tries)
    requires var g, first := Tried(EMPTY_GRAPH, tries), ResponsiveHops(r.trace.value)[0].addr;
      first in g.ips && IsExactGraph(RouteView(g), first, maxDepth, nodeLimit, out)
    ensures var hops := ResponsiveHops(r.trace.value);
      out.complete ==> hops[|hops| - 1].addr in Addrs(out.nodes)
  {
    var g := Tried(EMPTY_GRAPH, tries);
    TriedIsJoined(tries);
    TriedTraceIsReachable(asn, EMPTY_GRAPH, tries, r);
    var hops := ResponsiveHops(r.trace.value);
    ReachedIsShown(g, hops[0].addr, hops[|hops| - 1].addr, maxDepth, nodeLimit, out);
  }

  /** A complete route graph shows everything its seed reaches. */
  lemma ReachedIsShown(g: Graph, first: string, last: string, maxDepth: nat, nodeLimit: nat, out: RouteGraph)
    requires NoDangling(g) && CanReach(g.nextHop.Keys, first, last) && first in g.ips && maxDepth > 0
    requires IsExactGraph(RouteView(g), first, maxDepth, nodeLimit, out)
    ensures out.complete ==> last in Addrs(out.nodes)
  {
    RouteViewIsValid(g);
    var n: nat :| Reaches(RouteView(g).Edges(), first, last, n);
    ReachStaysInside(RouteView(g), first, last, n);
    CompleteExactly(RouteView(g), first, maxDepth, nodeLimit, out);
  }
}
