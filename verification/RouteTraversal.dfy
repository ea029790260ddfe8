/**
 The bounded route traversal around one address: two breadth-first searches, toward
 predecessors and toward successors, that share one node budget.

 The graph database is a fixed snapshot. An IP node is named by its address, which is the
 key it is merged on, so the address also stands for the internal node id.
 */
module RouteTraversal {
  import opened Wrappers
  import opened HopGraph
  import opened Sequences

  const EDGE_LIMIT := 10_000

  /** The IP nodes, the NEXT_HOP relationships with their last_seen, and the IN_AS relationships. */
  datatype Snapshot = Snapshot(addrs: set<string>, lastSeen: map<Edge, int>, inAS: set<(string, int)>) {
    predicate Valid() {
      forall e :: e in lastSeen ==> e.0 in addrs && e.1 in addrs
    }
    function Edges(): set<Edge> {
      lastSeen.Keys
    }
    function Induced(ids: set<string>): set<Edge> {
      set e | e in lastSeen && e.0 in ids && e.1 in ids
    }
  }

  /** Recorded depths of a discovered node; 0 means that side has not recorded it. */
  datatype Depths = Depths(up: nat, down: nat)

  datatype Role = Seed | Upstream | Downstream | Both

  /** A row of the node query; `asn` is the AS the row was joined with. */
  datatype RouteNode = RouteNode(addr: string, asn: Option<int>, role: Role, depth: nat)

  datatype Reason = Untruncated | NodeLimit | DepthLimit | EdgeLimit

  datatype RouteGraph = RouteGraph(nodes: seq<RouteNode>, edges: seq<Edge>, complete: bool, reason: Reason)

  function ClampLimit(n: int, default: int, max: int): (r: int)
    requires 0 < default <= max
    ensures 0 < n <= max ==> r == n
    ensures n <= 0 ==> r == default
    ensures n > max ==> r == max
  {
    var n := if n <= 0 then default else n;
    if n > max then max else n
  }

  // ---- what the traversal is supposed to find ------------------------------------

  /** Everything at most `n` edges before or after the seed. */
  ghost function Explored(edges: set<Edge>, seed: string, n: nat): set<string> {
    Ball(Flip(edges), seed, n) + Ball(edges, seed, n)
  }

  /** Some address lies exactly `n` edges before or after the seed. */
  ghost predicate AtRim(edges: set<Edge>, seed: string, n: nat) {
    Layer(Flip(edges), seed, n) != {} || Layer(edges, seed, n) != {}
  }

  /** The addresses that can reach the seed or be reached from it. */
  ghost function Component(g: Snapshot, seed: string): set<string> {
    set v | v in g.addrs && (CanReach(g.Edges(), v, seed) || CanReach(g.Edges(), seed, v))
  }

  /** The one truncation reason the limits call for. */
  ghost function ExpectedReason(g: Snapshot, seed: string, maxDepth: nat, nodeLimit: nat): Reason {
    if |Explored(g.Edges(), seed, maxDepth)| > nodeLimit then NodeLimit
    else if AtRim(g.Edges(), seed, maxDepth) then DepthLimit
    else if |g.Induced(Explored(g.Edges(), seed, maxDepth))| > EDGE_LIMIT then EdgeLimit
    else Untruncated
  }

  function Addrs(nodes: seq<RouteNode>): set<string> {
    set n | n in nodes :: n.addr
  }

  function Rows(nodes: seq<RouteNode>): set<(string, Option<int>)> {
    set n | n in nodes :: (n.addr, n.asn)
  }

  predicate HasAS(g: Snapshot, addr: string) {
    exists k :: k in g.inAS && k.0 == addr
  }

  /** The rows of the node query: one for every AS of an address, or one without an AS. */
  function NodeRows(g: Snapshot, ids: set<string>): set<(string, Option<int>)> {
    (set k | k in g.inAS && k.0 in ids :: (k.0, Some(k.1))) + (set a | a in ids && !HasAS(g, a) :: (a, None))
  }

  /** The reported role and depth are true of the shortest walks. */
  ghost predicate NodeIsExact(edges: set<Edge>, seed: string, n: RouteNode) {
    match n.role
    case Seed => n.addr == seed && n.depth == 0
    case Upstream => n.addr != seed && IsDistance(edges, n.addr, seed, n.depth)
    case Downstream => n.addr != seed && IsDistance(edges, seed, n.addr, n.depth)
    case Both =>
      && n.addr != seed
      && exists u: nat, d: nat ::
           IsDistance(edges, n.addr, seed, u) && IsDistance(edges, seed, n.addr, d) && n.depth == Min(u, d)
  }

  /** A one-sided role is given only to an address the other side does not see within `maxDepth` edges. */
  ghost predicate RoleIsExact(edges: set<Edge>, seed: string, maxDepth: nat, n: RouteNode) {
    && (n.role == Upstream ==> forall m: nat :: m <= maxDepth ==> !Reaches(edges, seed, n.addr, m))
    && (n.role == Downstream ==> forall m: nat :: m <= maxDepth ==> !Reaches(edges, n.addr, seed, m))
  }

  /** Everything within some depth, and nothing beyond the next. */
  ghost predicate IsBreadthFirstPrefix(edges: set<Edge>, seed: string, maxDepth: nat, found: set<string>) {
    exists d: nat :: 1 <= d <= maxDepth && EndsInRound(edges, seed, d, found)
  }

  ghost predicate EndsInRound(edges: set<Edge>, seed: string, d: nat, found: set<string>)
    requires d > 0
  {
    Explored(edges, seed, d - 1) <= found <= Explored(edges, seed, d)
  }

  ghost predicate IsExactGraph(g: Snapshot, seed: string, maxDepth: nat, nodeLimit: nat, out: RouteGraph) {
    var edges, found := g.Edges(), Addrs(out.nodes);
    && out.reason == ExpectedReason(g, seed, maxDepth, nodeLimit)
    && out.complete == (out.reason == Untruncated)
    // each row once, at its exact depth
    && EachRowOnce(out.nodes)
    && Rows(out.nodes) == NodeRows(g, found)
    && (forall n :: n in out.nodes ==> NodeIsExact(edges, seed, n))
    && |found| <= nodeLimit
    // a breadth-first prefix when the budget ran out, everything within the depth otherwise
    && (out.reason == NodeLimit ==>
          && |found| == nodeLimit
          && IsBreadthFirstPrefix(edges, seed, maxDepth, found))
    && (out.reason != NodeLimit ==>
          && found == Explored(edges, seed, maxDepth)
          && forall n :: n in out.nodes ==> RoleIsExact(edges, seed, maxDepth, n))
    // the newest edges among the nodes, all of them unless there are too many
    && IsNewestEdges(g, g.Induced(found), EDGE_LIMIT, out.edges)
  }

  ghost predicate EachRowOnce(nodes: seq<RouteNode>) {
    forall i, j :: 0 <= i < j < |nodes| ==> (nodes[i].addr, nodes[i].asn) != (nodes[j].addr, nodes[j].asn)
  }

  /** `rows` lists the `limit` most recently seen edges of `pool`, newest first. */
  ghost predicate IsNewestEdges(g: Snapshot, pool: set<Edge>, limit: nat, rows: seq<Edge>) {
    && pool <= g.Edges()
    && |rows| == Min(limit, |pool|)
    && (forall i :: 0 <= i < |rows| ==> rows[i] in pool)
    && (forall i, j :: 0 <= i < j < |rows| ==> rows[i] != rows[j] && g.lastSeen[rows[i]] >= g.lastSeen[rows[j]])
    && (forall i, e :: 0 <= i < |rows| && e in pool && e !in rows ==> g.lastSeen[rows[i]] >= g.lastSeen[e])
  }

  // ---- sets and lists ---------------------------------------------------------------

  ghost predicate Distinct<T>(s: seq<T>) {
    forall i, j :: 0 <= i < j < |s| ==> s[i] != s[j]
  }

  function Elements<T>(s: seq<T>): set<T> {
    set x | x in s
  }

  lemma {:induction false} DistinctCount<T>(s: seq<T>)
    requires Distinct(s)
    ensures |Elements(s)| == |s|
    decreases |s|
  {
    if |s| > 0 {
      var t, x := s[..|s| - 1], s[|s| - 1];
      DistinctCount(t);
      assert Elements(s) == Elements(t) + {x};
    }
  }

  /** The pigeonhole step: more distinct ids than the budget cannot all have been admitted. */
  lemma Pigeonhole(ids: seq<string>, pool: set<string>, admitted: set<string>, nodeLimit: nat)
    requires Distinct(ids) && Elements(ids) <= pool && |ids| == Min(nodeLimit + 1, |pool|)
    requires Elements(ids) <= admitted && |admitted| <= nodeLimit
    ensures Elements(ids) == pool
  {
    DistinctCount(ids);
    SubsetCount(Elements(ids), admitted);
    SubsetCount(Elements(ids), pool);
  }

  // ---- queries -------------------------------------------------------------------

  /** RETURN DISTINCT ... LIMIT: any `limit` members of `pool`, in any order, or all of them. */
  method TakeDistinct(pool: set<string>, limit: nat) returns (ids: seq<string>)
    ensures Distinct(ids) && Elements(ids) <= pool && |ids| == Min(limit, |pool|)
  {
    ids := [];
    var rest := pool;
    while |ids| < limit && rest != {}
      invariant Distinct(ids) && Elements(ids) == pool - rest && rest <= pool
      invariant |ids| <= limit && |ids| + |rest| == |pool|
    {
      var id :| id in rest;
      ElementsSnoc(ids, id);
      assert forall x :: x in ids ==> x in Elements(ids);
      ids, rest := ids + [id], rest - {id};
    }
  }

  /** The ids a neighbour query may return for a frontier. */
  ghost predicate IsNeighbourQuery(edges: set<Edge>, frontier: set<string>, nodeLimit: nat, ids: seq<string>) {
    && Distinct(ids)
    && Elements(ids) <= Successors(edges, frontier)
    && |ids| == Min(nodeLimit + 1, |Successors(edges, frontier)|)
  }

  method NeighborIDs(g: Snapshot, frontier: seq<string>, incoming: bool, nodeLimit: nat) returns (ids: seq<string>)
    ensures incoming ==> IsNeighbourQuery(Flip(g.Edges()), Elements(frontier), nodeLimit, ids)
    ensures !incoming ==> IsNeighbourQuery(g.Edges(), Elements(frontier), nodeLimit, ids)
  {
    if |frontier| == 0 {
      assert Elements(frontier) == {};
      return [];
    }
    var edges := if incoming then Flip(g.Edges()) else g.Edges();
    ids := TakeDistinct(Successors(edges, Elements(frontier)), nodeLimit + 1);
  }

  method NewestEdge(g: Snapshot, pool: set<Edge>) returns (newest: Edge)
    requires pool != {} && pool <= g.Edges()
    ensures newest in pool && forall e :: e in pool ==> g.lastSeen[newest] >= g.lastSeen[e]
  {
    newest :| newest in pool;
    var rest := pool - {newest};
    while rest != {}
      invariant rest <= pool && newest in pool
      invariant forall e :: e in pool - rest ==> g.lastSeen[newest] >= g.lastSeen[e]
    {
      var e :| e in rest;
      if g.lastSeen[e] > g.lastSeen[newest] {
        newest := e;
      }
      rest := rest - {e};
    }
  }

  /** ORDER BY last_seen DESC LIMIT. */
  method LoadEdges(g: Snapshot, ids: set<string>, limit: nat) returns (rows: seq<Edge>)
    ensures IsNewestEdges(g, g.Induced(ids), limit, rows)
  {
    rows := [];
    var pool := g.Induced(ids);
    var rest := pool;
    while |rows| < limit && rest != {}
      invariant rest <= pool && |rows| <= limit && |rows| + |rest| == |pool|
      invariant forall i :: 0 <= i < |rows| ==> rows[i] in pool && rows[i] !in rest
      invariant forall e :: e in pool && e !in rest ==> e in rows
      invariant forall i, j :: 0 <= i < j < |rows| ==> rows[i] != rows[j] && g.lastSeen[rows[i]] >= g.lastSeen[rows[j]]
      invariant forall i, e :: 0 <= i < |rows| && e in rest ==> g.lastSeen[rows[i]] >= g.lastSeen[e]
    {
      var e := NewestEdge(g, rest);
      rows, rest := rows + [e], rest - {e};
    }
  }

  // ---- one round -------------------------------------------------------------------

  /** The variables of the traversal that a round updates. */
  datatype State = State(info: map<string, Depths>, upSeen: set<string>, downSeen: set<string>,
                         upFrontier: seq<string>, downFrontier: seq<string>, limited: bool) {
    /** Every known node was seen by a side, and the shared budget holds. */
    ghost predicate WithinBudget(nodeLimit: nat) {
      info.Keys == upSeen + downSeen && |info| <= nodeLimit
    }
    function RecordUp(id: string, depth: nat): State {
      this.(upSeen := upSeen + {id}, info := info[id := Lookup(info, id).(up := depth)],
            upFrontier := upFrontier + [id])
    }
    function RecordDown(id: string, depth: nat): State {
      this.(downSeen := downSeen + {id}, info := info[id := Lookup(info, id).(down := depth)],
            downFrontier := downFrontier + [id])
    }
  }

  function Prefix<T>(s: seq<T>, n: nat): seq<T> {
    s[..Min(n, |s|)]
  }

  function Lookup(info: map<string, Depths>, id: string): Depths {
    if id in info then info[id] else Depths(0, 0)
  }

  /** The frontier is what a side has newly seen, all of it among the examined ids. */
  ghost predicate SideInv(seen0: set<string>, seen: set<string>, frontier: seq<string>,
                          examined: set<string>, limited: bool) {
    && seen0 <= seen
    && Elements(frontier) == seen - seen0 && Distinct(frontier)
    && seen - seen0 <= examined
    && (!limited ==> examined <= seen)
  }

  /** `depth` was recorded on each side for exactly the ids that side has newly seen. */
  ghost predicate Records(before: State, after: State, depth: nat) {
    forall id {:trigger after.info[id]} :: id in after.info ==>
      && after.info[id].up == (if id in after.upSeen - before.upSeen then depth else Lookup(before.info, id).up)
      && after.info[id].down == (if id in after.downSeen - before.downSeen then depth else Lookup(before.info, id).down)
  }

  ghost predicate RoundInv(before: State, t: State, up: set<string>, down: set<string>, depth: nat, nodeLimit: nat) {
    && before.WithinBudget(nodeLimit) && t.WithinBudget(nodeLimit)
    && SideInv(before.upSeen, t.upSeen, t.upFrontier, up, t.limited)
    && SideInv(before.downSeen, t.downSeen, t.downFrontier, down, t.limited)
    && Records(before, t, depth)
    && (t.limited ==> |t.info| == nodeLimit)
  }

  lemma ElementsSnoc<T>(s: seq<T>, x: T)
    ensures Elements(s + [x]) == Elements(s) + {x}
  {
  }

  lemma PrefixSnoc<T>(s: seq<T>, n: nat)
    requires n < |s|
    ensures Elements(Prefix(s, n + 1)) == Elements(Prefix(s, n)) + {s[n]}
  {
    assert Prefix(s, n + 1) == Prefix(s, n) + [s[n]];
    ElementsSnoc(Prefix(s, n), s[n]);
  }

  lemma GrowSide(seen0: set<string>, seen: set<string>, frontier: seq<string>, examined: set<string>, id: string,
                 limited: bool)
    requires SideInv(seen0, seen, frontier, examined, limited) && id !in seen
    ensures SideInv(seen0, seen + {id}, frontier + [id], examined + {id}, limited)
  {
    ElementsSnoc(frontier, id);
  }

  lemma RecordUp(before: State, t: State, id: string, depth: nat)
    requires Records(before, t, depth) && id !in t.upSeen && before.upSeen <= t.upSeen
    requires before.info.Keys <= t.info.Keys && t.downSeen <= t.info.Keys
    ensures Records(before, t.RecordUp(id, depth), depth)
  {
    var after := t.RecordUp(id, depth);
    forall x | x in after.info
      ensures after.info[x].up == (if x in after.upSeen - before.upSeen then depth else Lookup(before.info, x).up)
      ensures after.info[x].down ==
              (if x in after.downSeen - before.downSeen then depth else Lookup(before.info, x).down)
    {
      assert x != id ==> x in t.info;
    }
  }

  lemma RecordDown(before: State, t: State, id: string, depth: nat)
    requires Records(before, t, depth) && id !in t.downSeen && before.downSeen <= t.downSeen
    requires before.info.Keys <= t.info.Keys && t.upSeen <= t.info.Keys
    ensures Records(before, t.RecordDown(id, depth), depth)
  {
    var after := t.RecordDown(id, depth);
    forall x | x in after.info
      ensures after.info[x].up == (if x in after.upSeen - before.upSeen then depth else Lookup(before.info, x).up)
      ensures after.info[x].down ==
              (if x in after.downSeen - before.downSeen then depth else Lookup(before.info, x).down)
    {
      assert x != id ==> x in t.info;
    }
  }

  lemma RecordedUp(before: State, t: State, up: set<string>, down: set<string>, id: string, depth: nat, nodeLimit: nat)
    requires RoundInv(before, t, up, down, depth, nodeLimit)
    requires id !in t.upSeen && (id in t.info || |t.info| < nodeLimit)
    ensures RoundInv(before, t.RecordUp(id, depth), up + {id}, down, depth, nodeLimit)
  {
    assert t.RecordUp(id, depth).WithinBudget(nodeLimit);
    GrowSide(before.upSeen, t.upSeen, t.upFrontier, up, id, t.limited);
    RecordUp(before, t, id, depth);
  }

  /** Examine one upstream id: record it if it is new there and the budget allows. */
  method AdmitUp(id: string, depth: nat, nodeLimit: nat, t0: State,
                 ghost before: State, ghost up: set<string>, ghost down: set<string>)
    returns (t: State)
    requires RoundInv(before, t0, up, down, depth, nodeLimit)
    ensures RoundInv(before, t, up + {id}, down, depth, nodeLimit)
    ensures t0.upSeen <= t.upSeen && t0.downSeen <= t.downSeen
    ensures t0.limited ==> t.limited
    ensures t.limited ==> t.info.Keys == t0.info.Keys
    ensures t.limited && !t0.limited ==> id !in t.info
  {
    if id in t0.upSeen {
      t := t0;
    } else if id !in t0.info && |t0.info| >= nodeLimit {
      t := t0.(limited := true);
    } else {
      t := t0.RecordUp(id, depth);
      RecordedUp(before, t0, up, down, id, depth, nodeLimit);
    }
  }

  lemma RecordedDown(before: State, t: State, up: set<string>, down: set<string>, id: string, depth: nat,
                     nodeLimit: nat)
    requires RoundInv(before, t, up, down, depth, nodeLimit)
    requires id !in t.downSeen && (id in t.info || |t.info| < nodeLimit)
    ensures RoundInv(before, t.RecordDown(id, depth), up, down + {id}, depth, nodeLimit)
  {
    assert t.RecordDown(id, depth).WithinBudget(nodeLimit);
    GrowSide(before.downSeen, t.downSeen, t.downFrontier, down, id, t.limited);
    RecordDown(before, t, id, depth);
  }

  /** Examine one downstream id: record it if it is new there and the budget allows. */
  method AdmitDown(id: string, depth: nat, nodeLimit: nat, t0: State,
                   ghost before: State, ghost up: set<string>, ghost down: set<string>)
    returns (t: State)
    requires RoundInv(before, t0, up, down, depth, nodeLimit)
    ensures RoundInv(before, t, up, down + {id}, depth, nodeLimit)
    ensures t0.upSeen <= t.upSeen && t0.downSeen <= t.downSeen
    ensures t0.limited ==> t.limited
    ensures t.limited ==> t.info.Keys == t0.info.Keys
    ensures t.limited && !t0.limited ==> id !in t.info
  {
    if id in t0.downSeen {
      t := t0;
    } else if id !in t0.info && |t0.info| >= nodeLimit {
      t := t0.(limited := true);
    } else {
      t := t0.RecordDown(id, depth);
      RecordedDown(before, t0, up, down, id, depth, nodeLimit);
    }
  }

  /**
   The budget refused a node at list position `cut`: before it both sides have had every id examined
   and admitted, and past it neither side gets a new node.
   */
  ghost predicate SharedFairly(before: State, t: State, upIDs: seq<string>, downIDs: seq<string>, cut: nat) {
    && Elements(Prefix(upIDs, cut)) <= t.upSeen && Elements(Prefix(downIDs, cut)) <= t.downSeen
    && t.info.Keys - before.info.Keys <= Elements(Prefix(upIDs, cut + 1)) + Elements(Prefix(downIDs, cut + 1))
    && exists id :: id !in t.info && id in Elements(upIDs) + Elements(downIDs)
  }

  lemma FairnessKept(before: State, t0: State, t: State, upIDs: seq<string>, downIDs: seq<string>, cut: nat)
    requires SharedFairly(before, t0, upIDs, downIDs, cut)
    requires t.info.Keys == t0.info.Keys && t0.upSeen <= t.upSeen && t0.downSeen <= t.downSeen
    ensures SharedFairly(before, t, upIDs, downIDs, cut)
  {
    var id :| id !in t0.info && id in Elements(upIDs) + Elements(downIDs);
    assert id !in t.info;
  }

  lemma FairnessReached(before: State, t0: State, t: State, upIDs: seq<string>, downIDs: seq<string>, i: nat,
                        depth: nat, nodeLimit: nat)
    requires RoundInv(before, t0, Elements(Prefix(upIDs, i)), Elements(Prefix(downIDs, i)), depth, nodeLimit)
    requires RoundInv(before, t, Elements(Prefix(upIDs, i + 1)), Elements(Prefix(downIDs, i + 1)), depth, nodeLimit)
    requires !t0.limited && t0.upSeen <= t.upSeen && t0.downSeen <= t.downSeen
    requires exists id :: id !in t.info && id in Elements(upIDs) + Elements(downIDs)
    ensures SharedFairly(before, t, upIDs, downIDs, i)
  {
    forall id | id in t.info.Keys - before.info.Keys
      ensures id in Elements(Prefix(upIDs, i + 1)) + Elements(Prefix(downIDs, i + 1))
    {
      assert id in t.upSeen - before.upSeen || id in t.downSeen - before.downSeen;
    }
  }

  /** One depth of the traversal: admit the neighbours of both sides alternately while the budget lasts. */
  method ExpandRound(depth: nat, nodeLimit: nat, upIDs: seq<string>, downIDs: seq<string>, before: State)
    returns (t: State, ghost cut: nat)
    requires before.WithinBudget(nodeLimit) && !before.limited
    requires before.upFrontier == [] && before.downFrontier == []
    ensures RoundInv(before, t, Elements(upIDs), Elements(downIDs), depth, nodeLimit)
    ensures t.limited ==> SharedFairly(before, t, upIDs, downIDs, cut)
  {
    t, cut := before, 0;
    var maxLen := |upIDs|;
    if |downIDs| > maxLen {
      maxLen := |downIDs|;
    }
    RoundStarts(before, upIDs, downIDs, depth, nodeLimit);
    for i := 0 to maxLen
      invariant RoundInv(before, t, Elements(Prefix(upIDs, i)), Elements(Prefix(downIDs, i)), depth, nodeLimit)
      invariant !t.limited ==> cut == i
      invariant t.limited ==> SharedFairly(before, t, upIDs, downIDs, cut)
    {
      var t0 := t;
      t := AdmitPair(i, depth, nodeLimit, upIDs, downIDs, t0, before);
      if !t.limited {
        cut := i + 1;
      } else if t0.limited {
        FairnessKept(before, t0, t, upIDs, downIDs, cut);
      } else {
        FairnessReached(before, t0, t, upIDs, downIDs, i, depth, nodeLimit);
      }
    }
    PrefixIsAll(upIDs, maxLen);
    PrefixIsAll(downIDs, maxLen);
  }

  lemma RoundStarts(before: State, upIDs: seq<string>, downIDs: seq<string>, depth: nat, nodeLimit: nat)
    requires before.WithinBudget(nodeLimit) && !before.limited
    requires before.upFrontier == [] && before.downFrontier == []
    ensures RoundInv(before, before, Elements(Prefix(upIDs, 0)), Elements(Prefix(downIDs, 0)), depth, nodeLimit)
  {
    assert Records(before, before, depth);
  }

  lemma PrefixIsAll<T>(s: seq<T>, n: nat)
    requires |s| <= n
    ensures Prefix(s, n) == s
  {
  }

  /** Position `i` of both lists: first the upstream id, then the downstream one. */
  method AdmitPair(i: nat, depth: nat, nodeLimit: nat, upIDs: seq<string>, downIDs: seq<string>,
                   t0: State, ghost before: State)
    returns (t: State)
    requires RoundInv(before, t0, Elements(Prefix(upIDs, i)), Elements(Prefix(downIDs, i)), depth, nodeLimit)
    ensures RoundInv(before, t, Elements(Prefix(upIDs, i + 1)), Elements(Prefix(downIDs, i + 1)), depth, nodeLimit)
    ensures t0.upSeen <= t.upSeen && t0.downSeen <= t.downSeen
    ensures t0.limited ==> t.limited
    ensures t.limited && t0.limited ==> t.info.Keys == t0.info.Keys
    ensures t.limited && !t0.limited ==> exists id :: id !in t.info && id in Elements(upIDs) + Elements(downIDs)
  {
    t := t0;
    if i < |upIDs| {
      PrefixSnoc(upIDs, i);
      t := AdmitUp(upIDs[i], depth, nodeLimit, t, before, Elements(Prefix(upIDs, i)), Elements(Prefix(downIDs, i)));
    }
    if i < |downIDs| {
      PrefixSnoc(downIDs, i);
      t := AdmitDown(downIDs[i], depth, nodeLimit, t, before,
                     Elements(Prefix(upIDs, i + 1)), Elements(Prefix(downIDs, i)));
    }
  }

  // ---- the rounds together -----------------------------------------------------------

  /** Recorded depths are exact, and 0 stands for the seed or for not recorded. */
  ghost predicate DepthsExact(edges: set<Edge>, seed: string, t: State) {
    && seed in t.upSeen && seed in t.downSeen
    && forall id {:trigger t.info[id]} :: id in t.info ==>
      && (if id in t.upSeen && id != seed
          then t.info[id].up > 0 && id in Layer(Flip(edges), seed, t.info[id].up)
          else t.info[id].up == 0)
      && (if id in t.downSeen && id != seed
          then t.info[id].down > 0 && id in Layer(edges, seed, t.info[id].down)
          else t.info[id].down == 0)
  }

  /** After `n` unrestricted rounds both sides have seen exactly their balls of radius `n`. */
  ghost predicate Searched(edges: set<Edge>, seed: string, t: State, n: nat) {
    && t.upSeen == Ball(Flip(edges), seed, n) && Elements(t.upFrontier) == Layer(Flip(edges), seed, n)
    && t.downSeen == Ball(edges, seed, n) && Elements(t.downFrontier) == Layer(edges, seed, n)
  }

  /** A truncated neighbour query never passes for a complete one. */
  lemma SideAdvances(edges: set<Edge>, s: string, d0: nat, d: nat, ids: seq<string>, seen: set<string>,
                     frontier: seq<string>, limited: bool, nodeLimit: nat)
    requires d == d0 + 1 && Distinct(ids) && |seen| <= nodeLimit
    requires var pool := Successors(edges, Layer(edges, s, d0));
      Elements(ids) <= pool && |ids| == Min(nodeLimit + 1, |pool|)
    requires SideInv(Ball(edges, s, d0), seen, frontier, Elements(ids), limited)
    ensures Elements(ids) <= Ball(edges, s, d)
    ensures seen <= Ball(edges, s, d) && Elements(frontier) <= Layer(edges, s, d)
    ensures !limited ==> seen == Ball(edges, s, d) && Elements(frontier) == Layer(edges, s, d)
  {
    FrontierSuffices(edges, s, d0);
    if !limited {
      Pigeonhole(ids, Successors(edges, Layer(edges, s, d0)), seen, nodeLimit);
    }
  }

  /** A refused neighbour is one explored node too many. */
  lemma BudgetExceeded(edges: set<Edge>, seed: string, d: nat, maxDepth: nat, found: set<string>, id: string)
    requires d <= maxDepth && id !in found && found + {id} <= Explored(edges, seed, d)
    ensures |Explored(edges, seed, maxDepth)| > |found|
  {
    ExploredGrows(edges, seed, d, maxDepth);
    SubsetCount(found + {id}, Explored(edges, seed, maxDepth));
  }

  /** When a frontier runs dry, further depth would find nothing more. */
  lemma FrontierDry(edges: set<Edge>, s: string, d: nat, maxDepth: nat)
    requires 0 < d <= maxDepth && Layer(edges, s, d) == {}
    ensures Ball(edges, s, d) == Ball(edges, s, maxDepth)
    ensures Layer(edges, s, maxDepth) == {}
  {
    EmptyLayerSaturates(edges, s, d, maxDepth);
    EmptyLayerSaturates(edges, s, d, d);
  }

  /** The search stopped for want of a frontier or at the depth limit, with everything in reach seen. */
  lemma SearchFinished(edges: set<Edge>, seed: string, t: State, rounds: nat, maxDepth: nat)
    requires Searched(edges, seed, t, rounds) && rounds <= maxDepth
    requires rounds == maxDepth || (t.upFrontier == [] && t.downFrontier == [])
    ensures t.upSeen == Ball(Flip(edges), seed, maxDepth) && t.downSeen == Ball(edges, seed, maxDepth)
    ensures rounds == maxDepth ==> (AtRim(edges, seed, maxDepth) <==> |t.upFrontier| > 0 || |t.downFrontier| > 0)
    ensures rounds < maxDepth ==> !AtRim(edges, seed, maxDepth)
  {
    FrontierIsLayer(t.upFrontier);
    FrontierIsLayer(t.downFrontier);
    if rounds < maxDepth {
      assert seed in Layer(edges, seed, 0);
      FrontierDry(edges, seed, rounds, maxDepth);
      FrontierDry(Flip(edges), seed, rounds, maxDepth);
    }
  }

  /** What a round leaves behind on the two sides, whether or not the budget ran out in it. */
  lemma RoundAdvances(edges: set<Edge>, seed: string, rounds: nat, depth: nat, nodeLimit: nat,
                      before: State, t: State, upIDs: seq<string>, downIDs: seq<string>)
    requires depth == rounds + 1
    requires before.upSeen == Ball(Flip(edges), seed, rounds) && before.downSeen == Ball(edges, seed, rounds)
    requires IsNeighbourQuery(Flip(edges), Layer(Flip(edges), seed, rounds), nodeLimit, upIDs)
    requires IsNeighbourQuery(edges, Layer(edges, seed, rounds), nodeLimit, downIDs)
    requires RoundInv(before, t, Elements(upIDs), Elements(downIDs), depth, nodeLimit)
    ensures !t.limited ==> Searched(edges, seed, t, depth)
    ensures Explored(edges, seed, rounds) <= t.info.Keys <= Explored(edges, seed, depth)
    ensures Elements(upIDs) + Elements(downIDs) <= Explored(edges, seed, depth)
    ensures t.upSeen - before.upSeen <= Layer(Flip(edges), seed, depth)
    ensures t.downSeen - before.downSeen <= Layer(edges, seed, depth)
  {
    SubsetCount(t.upSeen, t.info.Keys);
    SubsetCount(t.downSeen, t.info.Keys);
    SideAdvances(Flip(edges), seed, rounds, depth, upIDs, t.upSeen, t.upFrontier, t.limited, nodeLimit);
    SideAdvances(edges, seed, rounds, depth, downIDs, t.downSeen, t.downFrontier, t.limited, nodeLimit);
  }

  lemma RoundDepths(edges: set<Edge>, seed: string, depth: nat, nodeLimit: nat,
                    before: State, t: State, upIDs: seq<string>, downIDs: seq<string>)
    requires depth > 0 && DepthsExact(edges, seed, before)
    requires RoundInv(before, t, Elements(upIDs), Elements(downIDs), depth, nodeLimit)
    requires t.upSeen - before.upSeen <= Layer(Flip(edges), seed, depth)
    requires t.downSeen - before.downSeen <= Layer(edges, seed, depth)
    ensures DepthsExact(edges, seed, t)
  {
    forall id | id in t.info
      ensures if id in t.upSeen && id != seed
              then t.info[id].up > 0 && id in Layer(Flip(edges), seed, t.info[id].up)
              else t.info[id].up == 0
      ensures if id in t.downSeen && id != seed
              then t.info[id].down > 0 && id in Layer(edges, seed, t.info[id].down)
              else t.info[id].down == 0
    {
      assert id in t.upSeen ==> id in before.upSeen || id in t.upSeen - before.upSeen;
      assert id in t.downSeen ==> id in before.downSeen || id in t.downSeen - before.downSeen;
    }
  }

  lemma RoundOverBudget(edges: set<Edge>, seed: string, rounds: nat, depth: nat, maxDepth: nat,
                        before: State, t: State, upIDs: seq<string>, downIDs: seq<string>, cut: nat)
    requires depth == rounds + 1 && depth <= maxDepth && SharedFairly(before, t, upIDs, downIDs, cut)
    requires Elements(upIDs) + Elements(downIDs) <= Explored(edges, seed, depth)
    requires Explored(edges, seed, rounds) <= t.info.Keys <= Explored(edges, seed, depth)
    ensures |Explored(edges, seed, maxDepth)| > |t.info|
    ensures IsBreadthFirstPrefix(edges, seed, maxDepth, t.info.Keys)
  {
    assert EndsInRound(edges, seed, depth, t.info.Keys);
    var id :| id !in t.info && id in Elements(upIDs) + Elements(downIDs);
    BudgetExceeded(edges, seed, depth, maxDepth, t.info.Keys, id);
  }

  /** Query both sides and expand them by one edge. */
  method Round(g: Snapshot, seed: string, depth: nat, ghost rounds: nat, maxDepth: nat, nodeLimit: nat, t0: State)
    returns (t: State)
    requires depth == rounds + 1 <= maxDepth && !t0.limited && t0.WithinBudget(nodeLimit)
    requires Searched(g.Edges(), seed, t0, rounds) && DepthsExact(g.Edges(), seed, t0)
    ensures t.WithinBudget(nodeLimit) && DepthsExact(g.Edges(), seed, t)
    ensures !t.limited ==> Searched(g.Edges(), seed, t, depth)
    ensures t.limited ==>
      && |t.info| == nodeLimit && |Explored(g.Edges(), seed, maxDepth)| > nodeLimit
      && IsBreadthFirstPrefix(g.Edges(), seed, maxDepth, t.info.Keys)
  {
    ghost var edges := g.Edges();
    var upIDs := NeighborIDs(g, t0.upFrontier, true, nodeLimit);
    var downIDs := NeighborIDs(g, t0.downFrontier, false, nodeLimit);
    var before := t0.(upFrontier := [], downFrontier := []);
    ghost var cut;
    t, cut := ExpandRound(depth, nodeLimit, upIDs, downIDs, before);
    RoundAdvances(edges, seed, rounds, depth, nodeLimit, before, t, upIDs, downIDs);
    RoundDepths(edges, seed, depth, nodeLimit, before, t, upIDs, downIDs);
    if t.limited {
      RoundOverBudget(edges, seed, rounds, depth, maxDepth, before, t, upIDs, downIDs, cut);
    }
  }

  /** The two searches, until they run dry, reach the depth limit or exhaust the budget. */
  method Traverse(g: Snapshot, seed: string, maxDepth: nat, nodeLimit: nat)
    returns (t: State, reachedDepth: bool)
    requires maxDepth > 0 && nodeLimit > 0
    ensures t.WithinBudget(nodeLimit) && DepthsExact(g.Edges(), seed, t)
    ensures t.limited <==> |Explored(g.Edges(), seed, maxDepth)| > nodeLimit
    ensures t.limited ==> |t.info| == nodeLimit && IsBreadthFirstPrefix(g.Edges(), seed, maxDepth, t.info.Keys)
    ensures !t.limited ==>
      && t.upSeen == Ball(Flip(g.Edges()), seed, maxDepth) && t.downSeen == Ball(g.Edges(), seed, maxDepth)
      && (reachedDepth <==> AtRim(g.Edges(), seed, maxDepth))
  {
    t := State(map[seed := Depths(0, 0)], {seed}, {seed}, [seed], [seed], false);
    reachedDepth := false;
    ghost var edges, rounds: nat := g.Edges(), 0;
    SeedIsSearched(edges, seed, t);
    var depth := 1;
    while depth <= maxDepth && (|t.upFrontier| > 0 || |t.downFrontier| > 0)
      invariant depth == rounds + 1 <= maxDepth + 1
      invariant !t.limited && t.WithinBudget(nodeLimit)
      invariant Searched(edges, seed, t, rounds) && DepthsExact(edges, seed, t)
      invariant reachedDepth <==> depth > maxDepth && (|t.upFrontier| > 0 || |t.downFrontier| > 0)
      decreases maxDepth - depth
    {
      t := Round(g, seed, depth, rounds, maxDepth, nodeLimit, t);
      if t.limited {
        return;
      }
      if depth == maxDepth && (|t.upFrontier| > 0 || |t.downFrontier| > 0) {
        reachedDepth := true;
      }
      rounds := depth;
      depth := depth + 1;
    }
    SearchFinished(edges, seed, t, rounds, maxDepth);
    assert t.info.Keys == Explored(edges, seed, maxDepth);
  }

  lemma SeedIsSearched(edges: set<Edge>, seed: string, t: State)
    requires t == State(map[seed := Depths(0, 0)], {seed}, {seed}, [seed], [seed], false)
    ensures t.info.Keys == {seed} && Searched(edges, seed, t, 0) && DepthsExact(edges, seed, t)
  {
  }

  lemma FrontierIsLayer(frontier: seq<string>)
    ensures Elements(frontier) == {} <==> |frontier| == 0
  {
    if |frontier| > 0 {
      assert frontier[0] in Elements(frontier);
    }
  }

  // ---- the response ----------------------------------------------------------------------

  /** The reported role and depth of a discovered node. */
  function Describe(id: string, asn: Option<int>, v: Depths, seed: string): RouteNode {
    if id == seed then RouteNode(id, asn, Seed, 0)
    else if v.up > 0 && v.down == 0 then RouteNode(id, asn, Upstream, v.up)
    else if v.down > 0 && v.up == 0 then RouteNode(id, asn, Downstream, v.down)
    else if v.down > 0 && (v.up == 0 || v.down < v.up) then RouteNode(id, asn, Both, v.down)
    else RouteNode(id, asn, Both, v.up)
  }

  ghost predicate IsNodeList(info: map<string, Depths>, seed: string, nodes: seq<RouteNode>) {
    && EachRowOnce(nodes)
    && (forall n :: n in nodes ==> n.addr in info && n == Describe(n.addr, n.asn, info[n.addr], seed))
  }

  lemma NodeListSnoc(info: map<string, Depths>, seed: string, nodes: seq<RouteNode>, row: (string, Option<int>))
    requires IsNodeList(info, seed, nodes) && row.0 in info && row !in Rows(nodes)
    ensures var n := Describe(row.0, row.1, info[row.0], seed);
      IsNodeList(info, seed, nodes + [n]) && Rows(nodes + [n]) == Rows(nodes) + {row}
  {
    var n := Describe(row.0, row.1, info[row.0], seed);
    forall i | 0 <= i < |nodes|
      ensures (nodes[i].addr, nodes[i].asn) != row
    {
      assert nodes[i] in nodes;
      assert (nodes[i].addr, nodes[i].asn) in Rows(nodes);
    }
    assert forall m :: m in nodes + [n] <==> m in nodes || m == n;
  }

  /** The node query returns its rows in some order. */
  method LoadNodes(g: Snapshot, info: map<string, Depths>, seed: string) returns (nodes: seq<RouteNode>)
    ensures Rows(nodes) == NodeRows(g, info.Keys)
    ensures IsNodeList(info, seed, nodes)
  {
    nodes := [];
    var all := NodeRows(g, info.Keys);
    var rest := all;
    while rest != {}
      invariant rest <= all && Rows(nodes) == all - rest
      invariant IsNodeList(info, seed, nodes)
    {
      var row :| row in rest;
      NodeListSnoc(info, seed, nodes, row);
      nodes, rest := nodes + [Describe(row.0, row.1, info[row.0], seed)], rest - {row};
    }
  }

  /** Every address has a row. */
  lemma RowsHaveAddrs(g: Snapshot, ids: set<string>, nodes: seq<RouteNode>)
    requires Rows(nodes) == NodeRows(g, ids)
    ensures Addrs(nodes) == ids
  {
    forall a | a in ids
      ensures a in Addrs(nodes)
    {
      var row := RowOf(g, ids, a);
      assert row in Rows(nodes);
    }
    forall n | n in nodes
      ensures n.addr in ids
    {
      assert (n.addr, n.asn) in Rows(nodes);
    }
  }

  lemma RowOf(g: Snapshot, ids: set<string>, a: string) returns (row: (string, Option<int>))
    requires a in ids
    ensures row in NodeRows(g, ids) && row.0 == a
  {
    if HasAS(g, a) {
      var k :| k in g.inAS && k.0 == a;
      row := (a, Some(k.1));
    } else {
      row := (a, None);
    }
  }

  /** No address belongs to two ASes. */
  ghost predicate OneASEach(g: Snapshot, ids: set<string>) {
    forall k, l :: k in g.inAS && l in g.inAS && k.0 == l.0 && k.0 in ids ==> k == l
  }

  ghost predicate EachAddrOnce(nodes: seq<RouteNode>) {
    forall i, j :: 0 <= i < j < |nodes| ==> nodes[i].addr != nodes[j].addr
  }

  lemma OneRowEach(g: Snapshot, ids: set<string>, nodes: seq<RouteNode>)
    requires OneASEach(g, ids) && Rows(nodes) == NodeRows(g, ids) && EachRowOnce(nodes)
    ensures EachAddrOnce(nodes)
  {
    forall i, j | 0 <= i < j < |nodes|
      ensures nodes[i].addr != nodes[j].addr
    {
      var m, n := nodes[i], nodes[j];
      assert m in nodes && n in nodes;
      assert (m.addr, m.asn) in NodeRows(g, ids) && (n.addr, n.asn) in NodeRows(g, ids);
    }
  }

  lemma PlaceOfRow(nodes: seq<RouteNode>, row: (string, Option<int>)) returns (i: nat)
    requires row in Rows(nodes)
    ensures i < |nodes| && (nodes[i].addr, nodes[i].asn) == row
  {
    var n :| n in nodes && (n.addr, n.asn) == row;
    i :| 0 <= i < |nodes| && nodes[i] == n;
  }

  lemma TwoRowsEach(g: Snapshot, ids: set<string>, nodes: seq<RouteNode>)
    requires !OneASEach(g, ids) && Rows(nodes) == NodeRows(g, ids)
    ensures !EachAddrOnce(nodes)
  {
    var k, l :| k in g.inAS && l in g.inAS && k.0 == l.0 && k.0 in ids && k != l;
    var i := PlaceOfRow(nodes, (k.0, Some(k.1)));
    var j := PlaceOfRow(nodes, (l.0, Some(l.1)));
    assert k.1 != l.1;
    assert i < j || j < i;
  }

  /**
    * The node query joins an address with each of its ASes. So the response lists every node once if no address
    * within the depth belongs to two, and, unless the node budget cut something off, only then. It then has no
    * more nodes than the limit.
    */
  lemma NodesAreListedOnceExactly(g: Snapshot, seed: string, maxDepth: nat, nodeLimit: nat, out: RouteGraph)
    requires IsExactGraph(g, seed, maxDepth, nodeLimit, out)
    ensures var explored := Explored(g.Edges(), seed, maxDepth);
      && (OneASEach(g, explored) ==> EachAddrOnce(out.nodes))
      && (|explored| <= nodeLimit ==> (EachAddrOnce(out.nodes) <==> OneASEach(g, explored)))
    ensures EachAddrOnce(out.nodes) <==> OneASEach(g, Addrs(out.nodes))
    ensures EachAddrOnce(out.nodes) ==> |out.nodes| <= nodeLimit
  {
    FoundIsExplored(g, seed, maxDepth, nodeLimit, out);
    if OneASEach(g, Addrs(out.nodes)) {
      OneRowEach(g, Addrs(out.nodes), out.nodes);
    } else {
      TwoRowsEach(g, Addrs(out.nodes), out.nodes);
    }
    if EachAddrOnce(out.nodes) {
      DistinctAddrs(out.nodes);
    }
  }

  lemma FoundIsExplored(g: Snapshot, seed: string, maxDepth: nat, nodeLimit: nat, out: RouteGraph)
    requires IsExactGraph(g, seed, maxDepth, nodeLimit, out)
    ensures Addrs(out.nodes) <= Explored(g.Edges(), seed, maxDepth)
    ensures |Explored(g.Edges(), seed, maxDepth)| <= nodeLimit ==>
      Addrs(out.nodes) == Explored(g.Edges(), seed, maxDepth)
  {
    if out.reason == NodeLimit {
      PrefixIsExplored(g.Edges(), seed, maxDepth, Addrs(out.nodes));
    }
  }

  lemma PrefixIsExplored(edges: set<Edge>, seed: string, maxDepth: nat, found: set<string>)
    requires IsBreadthFirstPrefix(edges, seed, maxDepth, found)
    ensures found <= Explored(edges, seed, maxDepth)
  {
    var d: nat :| 1 <= d <= maxDepth && EndsInRound(edges, seed, d, found);
    ExploredGrows(edges, seed, d, maxDepth);
  }

  lemma ExploredGrows(edges: set<Edge>, seed: string, m: nat, n: nat)
    requires m <= n
    ensures Explored(edges, seed, m) <= Explored(edges, seed, n)
  {
    BallGrows(edges, seed, m, n);
    BallGrows(Flip(edges), seed, m, n);
  }

  /** The list has one entry for each AS of a node, so that number decides whether it keeps to the node limit. */
  lemma ListedRowsExactly(g: Snapshot, seed: string, maxDepth: nat, nodeLimit: nat, out: RouteGraph)
    requires IsExactGraph(g, seed, maxDepth, nodeLimit, out)
    ensures |Explored(g.Edges(), seed, maxDepth)| <= nodeLimit ==>
      |out.nodes| == |NodeRows(g, Explored(g.Edges(), seed, maxDepth))|
  {
    FoundIsExplored(g, seed, maxDepth, nodeLimit, out);
    DistinctRows(out.nodes);
  }

  lemma {:induction false} DistinctRows(nodes: seq<RouteNode>)
    requires EachRowOnce(nodes)
    ensures |Rows(nodes)| == |nodes|
    decreases |nodes|
  {
    if nodes != [] {
      var init, last := nodes[..|nodes| - 1], nodes[|nodes| - 1];
      DistinctRows(init);
      SplitLast(nodes);
      assert forall n :: n in nodes <==> n in init || n == last;
      assert Rows(nodes) == Rows(init) + {(last.addr, last.asn)};
    }
  }

  lemma {:induction false} DistinctAddrs(nodes: seq<RouteNode>)
    requires EachAddrOnce(nodes)
    ensures |Addrs(nodes)| == |nodes|
    decreases |nodes|
  {
    if nodes != [] {
      var init, last := nodes[..|nodes| - 1], nodes[|nodes| - 1];
      DistinctAddrs(init);
      SplitLast(nodes);
      assert forall n :: n in nodes <==> n in init || n == last;
      assert Addrs(nodes) == Addrs(init) + {last.addr};
    }
  }

  /** Recorded depths are shortest walk lengths. */
  lemma DepthsAreDistances(edges: set<Edge>, seed: string, t: State, id: string)
    requires DepthsExact(edges, seed, t) && id in t.info
    ensures t.info[id].up > 0 ==> IsDistance(edges, id, seed, t.info[id].up)
    ensures t.info[id].down > 0 ==> IsDistance(edges, seed, id, t.info[id].down)
    ensures id != seed && t.info.Keys == t.upSeen + t.downSeen ==> t.info[id].up > 0 || t.info[id].down > 0
  {
    var up, down := t.info[id].up, t.info[id].down;
    LayerIsDistance(Flip(edges), seed, up, id);
    FlipDistance(edges, id, seed, up);
    LayerIsDistance(edges, seed, down, id);
  }

  lemma DescribeIsExact(edges: set<Edge>, seed: string, t: State, id: string, asn: Option<int>)
    requires DepthsExact(edges, seed, t) && id in t.info && t.info.Keys == t.upSeen + t.downSeen
    ensures NodeIsExact(edges, seed, Describe(id, asn, t.info[id], seed))
  {
    DepthsAreDistances(edges, seed, t, id);
    DescribeFromDistances(edges, seed, id, asn, t.info[id]);
  }

  lemma DescribeFromDistances(edges: set<Edge>, seed: string, id: string, asn: Option<int>, v: Depths)
    requires v.up > 0 ==> IsDistance(edges, id, seed, v.up)
    requires v.down > 0 ==> IsDistance(edges, seed, id, v.down)
    requires id != seed ==> v.up > 0 || v.down > 0
    ensures NodeIsExact(edges, seed, Describe(id, asn, v, seed))
  {
  }

  lemma DescribeRoleIsExact(edges: set<Edge>, seed: string, t: State, maxDepth: nat, id: string, asn: Option<int>)
    requires DepthsExact(edges, seed, t) && id in t.info
    requires t.upSeen == Ball(Flip(edges), seed, maxDepth) && t.downSeen == Ball(edges, seed, maxDepth)
    ensures RoleIsExact(edges, seed, maxDepth, Describe(id, asn, t.info[id], seed))
  {
    var n := Describe(id, asn, t.info[id], seed);
    if n.role == Upstream {
      BallIsWalkEnds(edges, seed, maxDepth, id);
    } else if n.role == Downstream {
      BallIsWalkEnds(Flip(edges), seed, maxDepth, id);
      forall m: nat | m <= maxDepth
        ensures !Reaches(edges, id, seed, m)
      {
        FlipReverses(edges, id, seed, m);
      }
    }
  }

  lemma NodeListIsExact(edges: set<Edge>, seed: string, t: State, maxDepth: nat, nodes: seq<RouteNode>)
    requires DepthsExact(edges, seed, t) && t.info.Keys == t.upSeen + t.downSeen && IsNodeList(t.info, seed, nodes)
    ensures forall n :: n in nodes ==> NodeIsExact(edges, seed, n)
    ensures t.upSeen == Ball(Flip(edges), seed, maxDepth) && t.downSeen == Ball(edges, seed, maxDepth) ==>
      forall n :: n in nodes ==> RoleIsExact(edges, seed, maxDepth, n)
  {
    forall n | n in nodes
      ensures NodeIsExact(edges, seed, n)
    {
      DescribeIsExact(edges, seed, t, n.addr, n.asn);
    }
    if t.upSeen == Ball(Flip(edges), seed, maxDepth) && t.downSeen == Ball(edges, seed, maxDepth) {
      forall n | n in nodes
        ensures RoleIsExact(edges, seed, maxDepth, n)
      {
        DescribeRoleIsExact(edges, seed, t, maxDepth, n.addr, n.asn);
      }
    }
  }

  /** Asking for one row too many tells whether the limit cut anything off. */
  lemma OneRowTooMany(g: Snapshot, pool: set<Edge>, limit: nat, rows: seq<Edge>)
    requires IsNewestEdges(g, pool, limit + 1, rows)
    ensures |rows| > limit <==> |pool| > limit
    ensures |rows| > limit ==> IsNewestEdges(g, pool, limit, rows[..limit])
    ensures |rows| <= limit ==> IsNewestEdges(g, pool, limit, rows)
  {
    if |rows| > limit {
      var kept := rows[..limit];
      forall i, e | 0 <= i < |kept| && e in pool && e !in kept
        ensures g.lastSeen[kept[i]] >= g.lastSeen[e]
      {
        if e in rows {
          assert e == rows[limit];
        }
      }
    }
  }

  lemma Assembled(g: Snapshot, seed: string, maxDepth: nat, nodeLimit: nat, t: State, reachedDepth: bool,
                  out: RouteGraph)
    requires t.WithinBudget(nodeLimit) && DepthsExact(g.Edges(), seed, t)
    requires t.limited <==> |Explored(g.Edges(), seed, maxDepth)| > nodeLimit
    requires t.limited ==> |t.info| == nodeLimit && IsBreadthFirstPrefix(g.Edges(), seed, maxDepth, t.info.Keys)
    requires !t.limited ==>
      && t.upSeen == Ball(Flip(g.Edges()), seed, maxDepth) && t.downSeen == Ball(g.Edges(), seed, maxDepth)
      && (reachedDepth <==> AtRim(g.Edges(), seed, maxDepth))
    requires Rows(out.nodes) == NodeRows(g, t.info.Keys) && IsNodeList(t.info, seed, out.nodes)
    requires IsNewestEdges(g, g.Induced(t.info.Keys), EDGE_LIMIT, out.edges)
    requires out.reason == (if t.limited then NodeLimit else if reachedDepth then DepthLimit
                            else if |g.Induced(t.info.Keys)| > EDGE_LIMIT then EdgeLimit else Untruncated)
    requires out.complete == (out.reason == Untruncated)
    ensures IsExactGraph(g, seed, maxDepth, nodeLimit, out)
  {
    RowsHaveAddrs(g, t.info.Keys, out.nodes);
    NodeListIsExact(g.Edges(), seed, t, maxDepth, out.nodes);
    if !t.limited {
      assert t.info.Keys == Explored(g.Edges(), seed, maxDepth);
    }
  }

  /** The bounded route graph around one address. */
  method IPRouteGraph(g: Snapshot, addr: string, maxDepth: int, nodeLimit: int) returns (r: Result<RouteGraph, string>)
    ensures r.Failure? <==> addr !in g.addrs
    ensures r.Success? ==>
      IsExactGraph(g, addr, ClampLimit(maxDepth, 15, 30), ClampLimit(nodeLimit, 400, 1000), r.value)
  {
    var depthCap, nodeCap := ClampLimit(maxDepth, 15, 30), ClampLimit(nodeLimit, 400, 1000);
    if addr !in g.addrs {
      return Failure("ip " + addr + " not found");
    }
    var t, reachedDepth := Traverse(g, addr, depthCap, nodeCap);
    var nodes := LoadNodes(g, t.info, addr);
    var edges := LoadEdges(g, t.info.Keys, EDGE_LIMIT + 1);
    OneRowTooMany(g, g.Induced(t.info.Keys), EDGE_LIMIT, edges);
    var reason := Untruncated;
    if |edges| > EDGE_LIMIT {
      edges := edges[..EDGE_LIMIT];
      reason := EdgeLimit;
    }
    if t.limited {
      reason := NodeLimit;
    } else if reachedDepth {
      reason := DepthLimit;
    }
    var out := RouteGraph(nodes, edges, reason == Untruncated, reason);
    Assembled(g, addr, depthCap, nodeCap, t, reachedDepth, out);
    r := Success(out);
  }

  // ---- what Complete means -----------------------------------------------------------------

  lemma {:induction false} ReachStaysInside(g: Snapshot, a: string, b: string, n: nat)
    requires g.Valid() && Reaches(g.Edges(), a, b, n)
    ensures a in g.addrs <==> b in g.addrs
  {
    var p :| IsWalk(g.Edges(), p) && |p| == n + 1 && p[0] == a && p[n] == b;
    if n > 0 {
      assert (p[0], p[1]) in g.Edges() && (p[n - 1], p[n]) in g.Edges();
    }
  }

  /** With nothing at the depth limit, the explored set is the whole component. */
  lemma ExploredIsComponent(g: Snapshot, seed: string, maxDepth: nat)
    requires g.Valid() && seed in g.addrs && maxDepth > 0 && !AtRim(g.Edges(), seed, maxDepth)
    ensures Explored(g.Edges(), seed, maxDepth) == Component(g, seed)
  {
    var edges := g.Edges();
    forall v
      ensures v in Explored(edges, seed, maxDepth) <==> v in Component(g, seed)
    {
      SaturatedBallIsReach(edges, seed, maxDepth, v);
      SaturatedBallIsReach(Flip(edges), seed, maxDepth, v);
      EmptyLayerSaturates(edges, seed, maxDepth, maxDepth);
      EmptyLayerSaturates(Flip(edges), seed, maxDepth, maxDepth);
      CanReachFlips(edges, v, seed);
      if n: nat :| Reaches(edges, v, seed, n) {
        ReachStaysInside(g, v, seed, n);
      }
      if n: nat :| Reaches(edges, seed, v, n) {
        ReachStaysInside(g, seed, v, n);
      }
    }
  }

  lemma CanReachFlips(edges: set<Edge>, a: string, b: string)
    ensures CanReach(Flip(edges), b, a) <==> CanReach(edges, a, b)
  {
    forall n: nat
      ensures Reaches(Flip(edges), b, a, n) <==> Reaches(edges, a, b, n)
    {
      FlipReverses(edges, a, b, n);
    }
  }

  /** Every address of the component is fewer than `maxDepth` edges away from the seed. */
  ghost predicate AllNearerThan(edges: set<Edge>, seed: string, maxDepth: nat) {
    forall v, n: nat :: IsDistance(edges, v, seed, n) || IsDistance(edges, seed, v, n) ==> n < maxDepth
  }

  lemma RimIsFarthest(edges: set<Edge>, seed: string, maxDepth: nat)
    requires maxDepth > 0
    ensures !AtRim(edges, seed, maxDepth) <==> AllNearerThan(edges, seed, maxDepth)
  {
    if !AtRim(edges, seed, maxDepth) {
      forall v, n: nat | IsDistance(edges, v, seed, n) || IsDistance(edges, seed, v, n)
        ensures n < maxDepth
      {
        LayerIsDistance(edges, seed, n, v);
        LayerIsDistance(Flip(edges), seed, n, v);
        FlipDistance(edges, v, seed, n);
        if n >= maxDepth {
          EmptyLayerSaturates(edges, seed, maxDepth, n);
          EmptyLayerSaturates(Flip(edges), seed, maxDepth, n);
        }
      }
    } else if v :| v in Layer(edges, seed, maxDepth) {
      LayerIsDistance(edges, seed, maxDepth, v);
    } else {
      var v :| v in Layer(Flip(edges), seed, maxDepth);
      LayerIsDistance(Flip(edges), seed, maxDepth, v);
      FlipDistance(edges, v, seed, maxDepth);
    }
  }

  /**
   Complete is reported exactly when the whole component fits: within the node budget, strictly
   within the depth limit, and within the edge limit. It then shows the whole component.
   */
  lemma CompleteExactly(g: Snapshot, seed: string, maxDepth: nat, nodeLimit: nat, out: RouteGraph)
    requires g.Valid() && seed in g.addrs && maxDepth > 0 && IsExactGraph(g, seed, maxDepth, nodeLimit, out)
    ensures out.complete <==>
      && |Component(g, seed)| <= nodeLimit
      && AllNearerThan(g.Edges(), seed, maxDepth)
      && |g.Induced(Component(g, seed))| <= EDGE_LIMIT
    ensures out.complete ==>
      && Addrs(out.nodes) == Component(g, seed)
      && (forall e :: e in out.edges <==> e in g.Induced(Component(g, seed)))
  {
    RimIsFarthest(g.Edges(), seed, maxDepth);
    if !AtRim(g.Edges(), seed, maxDepth) {
      ExploredIsComponent(g, seed, maxDepth);
      if out.complete {
        NewestEdgesAll(g, g.Induced(Component(g, seed)), EDGE_LIMIT, out.edges);
      }
    }
  }

  lemma NewestEdgesAll(g: Snapshot, pool: set<Edge>, limit: nat, rows: seq<Edge>)
    requires IsNewestEdges(g, pool, limit, rows) && |pool| <= limit
    ensures forall e :: e in rows <==> e in pool
  {
    DistinctCount(rows);
    SubsetCount(Elements(rows), pool);
    assert forall e :: e in rows <==> e in Elements(rows);
  }

  // ---- what a response shows of the graph -----------------------------------------------------

  /**
    * The edges of a response lie between listed nodes, newest first, and one such edge is missing only when
    * 10,000 edges at least as new are shown.
    */
  lemma ShowsEdgesBetweenNodes(g: Snapshot, seed: string, maxDepth: nat, nodeLimit: nat, out: RouteGraph)
    requires IsExactGraph(g, seed, maxDepth, nodeLimit, out)
    ensures |out.edges| <= 10_000
    ensures forall e :: e in out.edges ==>
      e in g.lastSeen && (exists n :: n in out.nodes && n.addr == e.0) && (exists n :: n in out.nodes && n.addr == e.1)
    ensures forall m, n :: m in out.nodes && n in out.nodes && (m.addr, n.addr) in g.lastSeen &&
                           (m.addr, n.addr) !in out.edges ==>
      |out.edges| == 10_000 && forall e :: e in out.edges ==> g.lastSeen[e] >= g.lastSeen[(m.addr, n.addr)]
  {
    var found := Addrs(out.nodes);
    forall m, n | m in out.nodes && n in out.nodes && (m.addr, n.addr) in g.lastSeen &&
                  (m.addr, n.addr) !in out.edges
      ensures |out.edges| == 10_000 && forall e :: e in out.edges ==> g.lastSeen[e] >= g.lastSeen[(m.addr, n.addr)]
    {
      MissingEdgeIsOlder(g, g.Induced(found), EDGE_LIMIT, out.edges, (m.addr, n.addr));
    }
  }

  lemma MissingEdgeIsOlder(g: Snapshot, pool: set<Edge>, limit: nat, rows: seq<Edge>, missing: Edge)
    requires IsNewestEdges(g, pool, limit, rows) && missing in pool && missing !in rows
    ensures |rows| == limit && forall e :: e in rows ==> g.lastSeen[e] >= g.lastSeen[missing]
  {
    if |pool| <= limit {
      NewestEdgesAll(g, pool, limit, rows);
    }
    forall e | e in rows
      ensures g.lastSeen[e] >= g.lastSeen[missing]
    {
      var i :| 0 <= i < |rows| && rows[i] == e;
    }
  }

  /** A node is listed with each AS the database gives for it, and with none if there is none. */
  lemma ShowsASes(g: Snapshot, seed: string, maxDepth: nat, nodeLimit: nat, out: RouteGraph)
    requires IsExactGraph(g, seed, maxDepth, nodeLimit, out)
    ensures forall n :: n in out.nodes && n.asn.Some? ==> (n.addr, n.asn.value) in g.inAS
    ensures forall n, k :: n in out.nodes && n.asn.None? && k in g.inAS ==> k.0 != n.addr
    ensures forall n, k :: n in out.nodes && k in g.inAS && k.0 == n.addr ==>
      exists l :: l in out.nodes && l.addr == n.addr && l.asn == Some(k.1)
  {
    forall n | n in out.nodes
      ensures n.asn.Some? ==> (n.addr, n.asn.value) in g.inAS
      ensures n.asn.None? ==> !HasAS(g, n.addr)
    {
      assert (n.addr, n.asn) in Rows(out.nodes);
    }
    forall n, k | n in out.nodes && k in g.inAS && k.0 == n.addr
      ensures exists l :: l in out.nodes && l.addr == n.addr && l.asn == Some(k.1)
    {
      var i := PlaceOfRow(out.nodes, (k.0, Some(k.1)));
      assert out.nodes[i] in out.nodes;
    }
  }

  /** `within` is what lies at most `n` edges before or after the seed. */
  ghost predicate IsWithin(edges: set<Edge>, seed: string, n: nat, within: set<string>) {
    forall v :: v in within <==> exists m: nat :: m <= n && (Reaches(edges, v, seed, m) || Reaches(edges, seed, v, m))
  }

  lemma WithinIsExplored(edges: set<Edge>, seed: string, n: nat, within: set<string>)
    requires IsWithin(edges, seed, n, within)
    ensures within == Explored(edges, seed, n)
  {
    forall v
      ensures v in within <==> v in Explored(edges, seed, n)
    {
      BallIsWalkEnds(edges, seed, n, v);
      BallIsWalkEnds(Flip(edges), seed, n, v);
      forall m: nat
        ensures Reaches(Flip(edges), seed, v, m) <==> Reaches(edges, v, seed, m)
      {
        FlipReverses(edges, v, seed, m);
      }
    }
  }

  /**
    * The reason reported is the first that applies: more addresses within the depth than the node limit, an
    * address exactly at the depth limit, more than 10,000 edges between the addresses within the depth.
    */
  lemma ReasonExactly(g: Snapshot, seed: string, maxDepth: nat, nodeLimit: nat, out: RouteGraph,
                      within: set<string>, inner: set<Edge>)
    requires maxDepth > 0 && IsExactGraph(g, seed, maxDepth, nodeLimit, out)
    requires IsWithin(g.lastSeen.Keys, seed, maxDepth, within)
    requires forall e :: e in inner <==> e in g.lastSeen && e.0 in within && e.1 in within
    ensures out.reason == NodeLimit <==> |within| > nodeLimit
    ensures out.reason == DepthLimit <==>
      && |within| <= nodeLimit
      && exists v :: IsDistance(g.lastSeen.Keys, v, seed, maxDepth) || IsDistance(g.lastSeen.Keys, seed, v, maxDepth)
    ensures out.reason == EdgeLimit <==>
      && |within| <= nodeLimit && |inner| > 10_000
      && forall v ::
           !IsDistance(g.lastSeen.Keys, v, seed, maxDepth) && !IsDistance(g.lastSeen.Keys, seed, v, maxDepth)
    ensures out.complete <==> out.reason == Untruncated
  {
    WithinIsExplored(g.Edges(), seed, maxDepth, within);
    RimIsDistance(g.Edges(), seed, maxDepth);
    assert inner == g.Induced(within);
  }

  lemma RimIsDistance(edges: set<Edge>, seed: string, n: nat)
    ensures AtRim(edges, seed, n) <==> exists v :: IsDistance(edges, v, seed, n) || IsDistance(edges, seed, v, n)
  {
    forall v
      ensures v in Layer(Flip(edges), seed, n) <==> IsDistance(edges, v, seed, n)
      ensures v in Layer(edges, seed, n) <==> IsDistance(edges, seed, v, n)
    {
      LayerIsDistance(edges, seed, n, v);
      LayerIsDistance(Flip(edges), seed, n, v);
      FlipDistance(edges, v, seed, n);
    }
    if AtRim(edges, seed, n) {
      if v :| v in Layer(edges, seed, n) {
        assert IsDistance(edges, seed, v, n);
      } else {
        var v :| v in Layer(Flip(edges), seed, n);
        assert IsDistance(edges, v, seed, n);
      }
    }
  }
}
