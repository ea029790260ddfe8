/**
 The janitor that bounds the topology graph: stale relationships go first, then nodes that take
 part in nothing any more, each category in capped batches.
 */
module Janitor {
  import opened HopGraph
  import opened Sequences
  import opened Topology
  import opened Wrappers

  const MAX_PRUNE_BATCHES := 100

  /** The fixed query list, in the order it is run. */
  datatype Category =
    StalePing | StaleTargets | StaleNextHop | StaleTransits | StaleLocated | IdleProbe | IdleIp | IdleAS

  const REL_QUERIES := [StalePing, StaleTargets, StaleNextHop, StaleTransits, StaleLocated]

  const NODE_QUERIES := [IdleProbe, IdleIp, IdleAS]

  /** Something a prune query can delete. */
  datatype Item =
    | PingItem(pair: (int, string))
    | TargetItem(pair: (int, string))
    | HopItem(edge: Edge)
    | TransitItem(link: (int, int))
    | LocatedItem(pair: (int, string))
    | ProbeItem(prb: int)
    | IpItem(addr: string)
    | AsItem(asn: int)

  // ---- what the queries match and delete -------------------------------------------------

  /** coalesce(e.last_seen, ip.last_seen, 0) of a location. */
  function LocatedSeen(g: Graph, k: (int, string)): int
    requires k in g.located
  {
    if g.located[k].Some? then g.located[k].value
    else if k.1 in g.ips then Seen0(g.ips[k.1].lastSeen) else 0
  }

  predicate ProbeIsIdle(g: Graph, prb: int) {
    && (forall k :: k in g.ping ==> k.0 != prb)
    && (forall k :: k in g.targets ==> k.0 != prb)
  }

  predicate IpIsIdle(g: Graph, addr: string) {
    && (forall k :: k in g.ping ==> k.1 != addr)
    && (forall k :: k in g.targets ==> k.1 != addr)
    && (forall k :: k in g.nextHop ==> k.0 != addr && k.1 != addr)
  }

  predicate ASIsIdle(g: Graph, asn: int) {
    && (forall k :: k in g.inAS ==> k.1 != asn)
    && (forall k :: k in g.transits ==> k.0 != asn && k.1 != asn)
  }

  function Matching(c: Category, g: Graph, cutoff: int): set<Item> {
    match c
    case StalePing => set k | k in g.ping && g.ping[k].lastSeen < cutoff :: PingItem(k)
    case StaleTargets => set k | k in g.targets && g.targets[k].lastSeen < cutoff :: TargetItem(k)
    case StaleNextHop => set k | k in g.nextHop && g.nextHop[k].lastSeen < cutoff :: HopItem(k)
    case StaleTransits => set k | k in g.transits && g.transits[k].lastSeen < cutoff :: TransitItem(k)
    case StaleLocated => set k | k in g.located && LocatedSeen(g, k) < cutoff :: LocatedItem(k)
    case IdleProbe => set p | p in g.probes && Seen0(g.probes[p]) < cutoff && ProbeIsIdle(g, p) :: ProbeItem(p)
    case IdleIp => set a | a in g.ips && Seen0(g.ips[a].lastSeen) < cutoff && IpIsIdle(g, a) :: IpItem(a)
    case IdleAS => set n | n in g.ases && ASIsIdle(g, n) :: AsItem(n)
  }

  /** The rows of a table that are not gone. */
  function Without<K, V>(m: map<K, V>, gone: K -> bool): map<K, V> {
    map k | k in m && !gone(k) :: m[k]
  }

  lemma WithoutNone<K(!new), V>(m: map<K, V>, gone: K -> bool)
    requires forall k :: k in m ==> !gone(k)
    ensures Without(m, gone) == m
  {
  }

  lemma WithoutTwice<K(!new), V>(m: map<K, V>, p: K -> bool, q: K -> bool, r: K -> bool)
    requires forall k :: k in m ==> (r(k) <==> p(k) || q(k))
    ensures Without(Without(m, p), q) == Without(m, r)
  {
  }

  predicate HopGone(items: set<Item>, k: Edge) {
    HopItem(k) in items || IpItem(k.0) in items || IpItem(k.1) in items
  }

  predicate TransitGone(items: set<Item>, k: (int, int)) {
    TransitItem(k) in items || AsItem(k.0) in items || AsItem(k.1) in items
  }

  predicate TargetGone(items: set<Item>, k: (int, string)) {
    TargetItem(k) in items || ProbeItem(k.0) in items || IpItem(k.1) in items
  }

  predicate PingGone(items: set<Item>, k: (int, string)) {
    PingItem(k) in items || ProbeItem(k.0) in items || IpItem(k.1) in items
  }

  predicate LocatedGone(items: set<Item>, k: (int, string)) {
    LocatedItem(k) in items || ProbeItem(k.0) in items || IpItem(k.1) in items
  }

  /** Delete the items; a node takes its remaining relationships with it. */
  function Remove(g: Graph, items: set<Item>): Graph {
    Graph(
      Without(g.ips, a => IpItem(a) in items),
      Without(g.probes, p => ProbeItem(p) in items),
      Without(g.sources, p => ProbeItem(p) in items),
      Without(g.ases, n => AsItem(n) in items),
      Without(g.nextHop, k => HopGone(items, k)),
      Without(g.transits, k => TransitGone(items, k)),
      Without(g.targets, k => TargetGone(items, k)),
      Without(g.ping, k => PingGone(items, k)),
      Without(g.located, k => LocatedGone(items, k)),
      set k | k in g.inAS && IpItem(k.0) !in items && AsItem(k.1) !in items)
  }

  lemma RemoveNothing(g: Graph)
    ensures Remove(g, {}) == g
  {
    WithoutNone(g.ips, a => IpItem(a) in {});
    WithoutNone(g.probes, p => ProbeItem(p) in {});
    WithoutNone(g.sources, p => ProbeItem(p) in {});
    WithoutNone(g.ases, n => AsItem(n) in {});
    WithoutNone(g.nextHop, k => HopGone({}, k));
    WithoutNone(g.transits, k => TransitGone({}, k));
    WithoutNone(g.targets, k => TargetGone({}, k));
    WithoutNone(g.ping, k => PingGone({}, k));
    WithoutNone(g.located, k => LocatedGone({}, k));
    assert Remove(g, {}).inAS == g.inAS;
  }

  lemma NodesTwice(g: Graph, a: set<Item>, b: set<Item>)
    ensures var h, t := Remove(Remove(g, a), b), Remove(g, a + b);
      h.ips == t.ips && h.probes == t.probes && h.sources == t.sources && h.ases == t.ases
  {
    var c := a + b;
    WithoutTwice(g.ips, x => IpItem(x) in a, x => IpItem(x) in b, x => IpItem(x) in c);
    WithoutTwice(g.probes, x => ProbeItem(x) in a, x => ProbeItem(x) in b, x => ProbeItem(x) in c);
    WithoutTwice(g.sources, x => ProbeItem(x) in a, x => ProbeItem(x) in b, x => ProbeItem(x) in c);
    WithoutTwice(g.ases, x => AsItem(x) in a, x => AsItem(x) in b, x => AsItem(x) in c);
  }

  lemma EdgesTwice(g: Graph, a: set<Item>, b: set<Item>)
    ensures var h, t := Remove(Remove(g, a), b), Remove(g, a + b);
      h.nextHop == t.nextHop && h.transits == t.transits && h.targets == t.targets && h.ping == t.ping &&
      h.located == t.located
  {
    var c := a + b;
    WithoutTwice(g.nextHop, k => HopGone(a, k), k => HopGone(b, k), k => HopGone(c, k));
    WithoutTwice(g.transits, k => TransitGone(a, k), k => TransitGone(b, k), k => TransitGone(c, k));
    WithoutTwice(g.targets, k => TargetGone(a, k), k => TargetGone(b, k), k => TargetGone(c, k));
    WithoutTwice(g.ping, k => PingGone(a, k), k => PingGone(b, k), k => PingGone(c, k));
    WithoutTwice(g.located, k => LocatedGone(a, k), k => LocatedGone(b, k), k => LocatedGone(c, k));
  }

  lemma RemoveTwice(g: Graph, a: set<Item>, b: set<Item>)
    ensures Remove(Remove(g, a), b) == Remove(g, a + b)
  {
    NodesTwice(g, a, b);
    EdgesTwice(g, a, b);
    assert Remove(Remove(g, a), b).inAS == Remove(g, a + b).inAS;
  }

  // ---- one category ----------------------------------------------------------------------------

  lemma RestPing(g: Graph, cutoff: int, del: set<Item>)
    requires del <= Matching(StalePing, g, cutoff)
    ensures Matching(StalePing, Remove(g, del), cutoff) == Matching(StalePing, g, cutoff) - del
  {
  }

  lemma RestTargets(g: Graph, cutoff: int, del: set<Item>)
    requires del <= Matching(StaleTargets, g, cutoff)
    ensures Matching(StaleTargets, Remove(g, del), cutoff) == Matching(StaleTargets, g, cutoff) - del
  {
  }

  lemma RestNextHop(g: Graph, cutoff: int, del: set<Item>)
    requires del <= Matching(StaleNextHop, g, cutoff)
    ensures Matching(StaleNextHop, Remove(g, del), cutoff) == Matching(StaleNextHop, g, cutoff) - del
  {
  }

  lemma RestTransits(g: Graph, cutoff: int, del: set<Item>)
    requires del <= Matching(StaleTransits, g, cutoff)
    ensures Matching(StaleTransits, Remove(g, del), cutoff) == Matching(StaleTransits, g, cutoff) - del
  {
  }

  lemma RestLocated(g: Graph, cutoff: int, del: set<Item>)
    requires del <= Matching(StaleLocated, g, cutoff)
    ensures Matching(StaleLocated, Remove(g, del), cutoff) == Matching(StaleLocated, g, cutoff) - del
  {
  }

  lemma RestProbe(g: Graph, cutoff: int, del: set<Item>)
    requires del <= Matching(IdleProbe, g, cutoff)
    ensures Matching(IdleProbe, Remove(g, del), cutoff) == Matching(IdleProbe, g, cutoff) - del
  {
    WithoutNone(g.ping, k => PingGone(del, k));
    WithoutNone(g.targets, k => TargetGone(del, k));
  }

  /** Deleting idle addresses takes no measurement with them. */
  lemma IdleIpsAreUnused(g: Graph, cutoff: int, del: set<Item>)
    requires del <= Matching(IdleIp, g, cutoff)
    ensures var h := Remove(g, del); h.ping == g.ping && h.targets == g.targets && h.nextHop == g.nextHop
  {
    WithoutNone(g.ping, k => PingGone(del, k));
    WithoutNone(g.targets, k => TargetGone(del, k));
    WithoutNone(g.nextHop, k => HopGone(del, k));
  }

  lemma RestIp(g: Graph, cutoff: int, del: set<Item>)
    requires del <= Matching(IdleIp, g, cutoff)
    ensures Matching(IdleIp, Remove(g, del), cutoff) == Matching(IdleIp, g, cutoff) - del
  {
    IdleIpsAreUnused(g, cutoff, del);
  }

  lemma RestAS(g: Graph, cutoff: int, del: set<Item>)
    requires del <= Matching(IdleAS, g, cutoff)
    ensures Matching(IdleAS, Remove(g, del), cutoff) == Matching(IdleAS, g, cutoff) - del
  {
    WithoutNone(g.transits, k => TransitGone(del, k));
    assert Remove(g, del).inAS == g.inAS;
  }

  /** Deleting some matches of a query leaves exactly the others. */
  lemma RemoveLeavesRest(c: Category, g: Graph, cutoff: int, del: set<Item>)
    requires del <= Matching(c, g, cutoff)
    ensures Matching(c, Remove(g, del), cutoff) == Matching(c, g, cutoff) - del
  {
    match c
    case StalePing => RestPing(g, cutoff, del);
    case StaleTargets => RestTargets(g, cutoff, del);
    case StaleNextHop => RestNextHop(g, cutoff, del);
    case StaleTransits => RestTransits(g, cutoff, del);
    case StaleLocated => RestLocated(g, cutoff, del);
    case IdleProbe => RestProbe(g, cutoff, del);
    case IdleIp => RestIp(g, cutoff, del);
    case IdleAS => RestAS(g, cutoff, del);
  }

  // ---- deletions keep the graph well formed and the fresh relationships -------------------------

  /** A relationship goes with its probe, so what is left of both is still in step. */
  lemma RemoveKeepsDominated(g: Graph, del: set<Item>)
    requires Dominated(g) && NoDangling(g)
    ensures Dominated(Remove(g, del))
  {
  }

  lemma RemoveKeepsJoined(g: Graph, del: set<Item>)
    requires NoDangling(g)
    ensures NoDangling(Remove(g, del))
  {
  }

  lemma RemoveKeepsShape(g: Graph, del: set<Item>)
    requires Dominated(g) && NoDangling(g)
    ensures Dominated(Remove(g, del)) && NoDangling(Remove(g, del))
  {
    RemoveKeepsDominated(g, del);
    RemoveKeepsJoined(g, del);
  }

  /** Every row of `h` is a row of `g`. */
  ghost predicate IsPart(h: Graph, g: Graph) {
    && (forall k :: k in h.ping ==> k in g.ping && h.ping[k] == g.ping[k])
    && (forall k :: k in h.targets ==> k in g.targets && h.targets[k] == g.targets[k])
    && (forall k :: k in h.nextHop ==> k in g.nextHop && h.nextHop[k] == g.nextHop[k])
    && (forall k :: k in h.transits ==> k in g.transits && h.transits[k] == g.transits[k])
    && (forall k :: k in h.located ==> k in g.located && h.located[k] == g.located[k])
    && (forall a :: a in h.ips ==> a in g.ips && h.ips[a] == g.ips[a])
    && (forall p :: p in h.probes ==> p in g.probes && h.probes[p] == g.probes[p])
  }

  /**
   No relationship observed since the cutoff is lost; a location goes only together with its IP.
   */
  ghost predicate KeepsFresh(g: Graph, h: Graph, cutoff: int) {
    && (forall k :: k in g.ping && g.ping[k].lastSeen >= cutoff ==> k in h.ping)
    && (forall k :: k in g.targets && g.targets[k].lastSeen >= cutoff ==> k in h.targets)
    && (forall k :: k in g.nextHop && g.nextHop[k].lastSeen >= cutoff ==> k in h.nextHop)
    && (forall k :: k in g.transits && g.transits[k].lastSeen >= cutoff ==> k in h.transits)
    && (forall k :: k in g.located && g.located[k].Some? && g.located[k].value >= cutoff ==>
          (k in h.located <==> k.1 in h.ips))
  }

  lemma RemoveIsPart(g: Graph, del: set<Item>)
    ensures IsPart(Remove(g, del), g)
  {
  }

  lemma FreshPingStays(c: Category, g: Graph, cutoff: int, del: set<Item>, k: (int, string))
    requires Dominated(g) && del <= Matching(c, g, cutoff) && k in g.ping && g.ping[k].lastSeen >= cutoff
    ensures !PingGone(del, k)
  {
  }

  lemma FreshTargetStays(c: Category, g: Graph, cutoff: int, del: set<Item>, k: (int, string))
    requires Dominated(g) && del <= Matching(c, g, cutoff) && k in g.targets && g.targets[k].lastSeen >= cutoff
    ensures !TargetGone(del, k)
  {
  }

  lemma FreshHopStays(c: Category, g: Graph, cutoff: int, del: set<Item>, k: Edge)
    requires Dominated(g) && del <= Matching(c, g, cutoff) && k in g.nextHop && g.nextHop[k].lastSeen >= cutoff
    ensures !HopGone(del, k)
  {
  }

  lemma FreshTransitStays(c: Category, g: Graph, cutoff: int, del: set<Item>, k: (int, int))
    requires Dominated(g) && del <= Matching(c, g, cutoff) && k in g.transits && g.transits[k].lastSeen >= cutoff
    ensures !TransitGone(del, k)
  {
  }

  /** A fresh location goes only with its IP: its probe is as fresh, so no probe is pruned under it. */
  lemma FreshLocationGoesWithIp(c: Category, g: Graph, cutoff: int, del: set<Item>, k: (int, string))
    requires Dominated(g) && NoDangling(g) && del <= Matching(c, g, cutoff)
    requires k in g.located && g.located[k].Some? && g.located[k].value >= cutoff
    ensures LocatedGone(del, k) <==> IpItem(k.1) in del
  {
  }

  /** What one prune query deletes is never fresh, except a location whose IP goes. */
  lemma RemoveKeepsFresh(c: Category, g: Graph, cutoff: int, del: set<Item>)
    requires Dominated(g) && NoDangling(g) && del <= Matching(c, g, cutoff)
    ensures KeepsFresh(g, Remove(g, del), cutoff)
  {
    var h := Remove(g, del);
    forall k | k in g.ping && g.ping[k].lastSeen >= cutoff
      ensures k in h.ping
    {
      FreshPingStays(c, g, cutoff, del, k);
    }
    forall k | k in g.targets && g.targets[k].lastSeen >= cutoff
      ensures k in h.targets
    {
      FreshTargetStays(c, g, cutoff, del, k);
    }
    forall k | k in g.nextHop && g.nextHop[k].lastSeen >= cutoff
      ensures k in h.nextHop
    {
      FreshHopStays(c, g, cutoff, del, k);
    }
    forall k | k in g.transits && g.transits[k].lastSeen >= cutoff
      ensures k in h.transits
    {
      FreshTransitStays(c, g, cutoff, del, k);
    }
    forall k | k in g.located && g.located[k].Some? && g.located[k].value >= cutoff
      ensures k in h.located <==> k.1 in h.ips
    {
      FreshLocationGoesWithIp(c, g, cutoff, del, k);
    }
  }

  lemma KeepsFreshTwice(g: Graph, h: Graph, i: Graph, cutoff: int)
    requires KeepsFresh(g, h, cutoff) && KeepsFresh(h, i, cutoff) && IsPart(h, g) && IsPart(i, h)
    requires NoDangling(i)
    ensures KeepsFresh(g, i, cutoff) && IsPart(i, g)
  {
  }

  function Rank(c: Category): nat {
    match c
    case StalePing => 0
    case StaleTargets => 1
    case StaleNextHop => 2
    case StaleTransits => 3
    case StaleLocated => 4
    case IdleProbe => 5
    case IdleIp => 6
    case IdleAS => 7
  }

  lemma ProbesStayBusy(g: Graph, cutoff: int, d: Category, del: set<Item>)
    requires Rank(d) > 5 && del <= Matching(d, g, cutoff) && Matching(IdleProbe, g, cutoff) == {}
    ensures Matching(IdleProbe, Remove(g, del), cutoff) == {}
  {
    WithoutNone(g.ping, k => PingGone(del, k));
    WithoutNone(g.targets, k => TargetGone(del, k));
    WithoutNone(g.probes, p => ProbeItem(p) in del);
  }

  lemma IpsStayBusy(g: Graph, cutoff: int, del: set<Item>)
    requires del <= Matching(IdleAS, g, cutoff) && Matching(IdleIp, g, cutoff) == {}
    ensures Matching(IdleIp, Remove(g, del), cutoff) == {}
  {
    WithoutNone(g.ping, k => PingGone(del, k));
    WithoutNone(g.targets, k => TargetGone(del, k));
    WithoutNone(g.nextHop, k => HopGone(del, k));
    WithoutNone(g.ips, a => IpItem(a) in del);
  }

  lemma NoneStaleArises(c: Category, g: Graph, cutoff: int, del: set<Item>)
    requires Rank(c) < 5 && Matching(c, g, cutoff) == {}
    ensures Matching(c, Remove(g, del), cutoff) == {}
  {
    forall x | x in Matching(c, Remove(g, del), cutoff)
      ensures x in Matching(c, g, cutoff)
    {
    }
  }

  /** A later query gives an earlier, finished one nothing new to delete. */
  lemma StaysClean(c: Category, d: Category, g: Graph, cutoff: int, del: set<Item>)
    requires Rank(c) < Rank(d) && del <= Matching(d, g, cutoff) && Matching(c, g, cutoff) == {}
    ensures Matching(c, Remove(g, del), cutoff) == {}
  {
    if Rank(c) < 5 {
      NoneStaleArises(c, g, cutoff, del);
    } else if c == IdleProbe {
      ProbesStayBusy(g, cutoff, d, del);
    } else {
      IpsStayBusy(g, cutoff, del);
    }
  }

  // ---- one prune pass --------------------------------------------------------------------------------

  const QUERIES := REL_QUERIES + NODE_QUERIES

  function Cap(batchSize: nat): nat {
    MAX_PRUNE_BATCHES * batchSize
  }

  /** The graph after the first queries of a pass, which deleted `removed[0]`, `removed[1]`, ... */
  function Pruned(g: Graph, removed: seq<set<Item>>): Graph
    decreases |removed|
  {
    if removed == [] then g else Remove(Pruned(g, removed[..|removed| - 1]), removed[|removed| - 1])
  }

  /** A query deleted some of its matches in `g`: all of them, or as many as its batches allow. */
  ghost predicate IsTurn(c: Category, g: Graph, cutoff: int, batchSize: nat, del: set<Item>) {
    del <= Matching(c, g, cutoff) && |del| == Min(Cap(batchSize), |Matching(c, g, cutoff)|)
  }

  /** A pass, or the part of one that its first queries make up. */
  ghost predicate IsPass(g: Graph, cutoff: int, batchSize: nat, removed: seq<set<Item>>)
    decreases |removed|
  {
    removed == [] ||
    var n := |removed| - 1;
    && n < |QUERIES|
    && IsPass(g, cutoff, batchSize, removed[..n])
    && IsTurn(QUERIES[n], Pruned(g, removed[..n]), cutoff, batchSize, removed[n])
  }

  /** No query of the pass met more matches than its batches allow. */
  ghost predicate Uncapped(g: Graph, cutoff: int, batchSize: nat, removed: seq<set<Item>>)
    requires |removed| <= |QUERIES|
    decreases |removed|
  {
    removed == [] ||
    var n := |removed| - 1;
    && Uncapped(g, cutoff, batchSize, removed[..n])
    && |Matching(QUERIES[n], Pruned(g, removed[..n]), cutoff)| <= Cap(batchSize)
  }

  /** All queries had their turn, and none was capped. */
  ghost predicate IsFullPass(g: Graph, cutoff: int, batchSize: nat, removed: seq<set<Item>>) {
    |removed| == |QUERIES| && IsPass(g, cutoff, batchSize, removed) && Uncapped(g, cutoff, batchSize, removed)
  }

  /** No query has anything to delete. */
  ghost predicate Settled(g: Graph, cutoff: int) {
    forall c: Category :: Matching(c, g, cutoff) == {}
  }

  lemma QueryOfRank(c: Category)
    ensures Rank(c) < |QUERIES| && QUERIES[Rank(c)] == c
  {
  }

  lemma RankOfQuery(i: nat)
    requires i < |QUERIES|
    ensures Rank(QUERIES[i]) == i
  {
  }

  /** One more deletion by a query loses nothing fresh either. */
  lemma DeletionIsSafe(g: Graph, h: Graph, c: Category, cutoff: int, del: set<Item>)
    requires Dominated(h) && NoDangling(h) && IsPart(h, g) && KeepsFresh(g, h, cutoff)
    requires del <= Matching(c, h, cutoff)
    ensures var t := Remove(h, del); Dominated(t) && NoDangling(t) && IsPart(t, g) && KeepsFresh(g, t, cutoff)
  {
    RemoveKeepsFresh(c, h, cutoff, del);
    RemoveKeepsShape(h, del);
    RemoveIsPart(h, del);
    PartOfPart(g, h, Remove(h, del));
    KeepsFreshTwice(g, h, Remove(h, del), cutoff);
  }

  lemma PartOfPart(g: Graph, h: Graph, t: Graph)
    requires IsPart(h, g) && IsPart(t, h)
    ensures IsPart(t, g)
  {
  }

  /** What a pass keeps of the graph `g` it started from. */
  ghost predicate IsSafe(g: Graph, h: Graph, cutoff: int) {
    Dominated(h) && NoDangling(h) && IsPart(h, g) && KeepsFresh(g, h, cutoff)
  }

  /** Every stage of a pass is safe. */
  ghost predicate SafeThroughout(g: Graph, cutoff: int, removed: seq<set<Item>>)
    decreases |removed|
  {
    && IsSafe(g, Pruned(g, removed), cutoff)
    && (removed == [] || SafeThroughout(g, cutoff, removed[..|removed| - 1]))
  }

  /** At every stage of a pass, capped or not, the graph is well formed and no fresh relationship has been lost. */
  lemma {:induction false} StagesAreSafe(g: Graph, cutoff: int, batchSize: nat, removed: seq<set<Item>>)
    requires Dominated(g) && NoDangling(g) && IsPass(g, cutoff, batchSize, removed)
    ensures SafeThroughout(g, cutoff, removed)
    decreases |removed|
  {
    if removed != [] {
      var n := |removed| - 1;
      StagesAreSafe(g, cutoff, batchSize, removed[..n]);
      SplitLast(removed);
      NextStageIsSafe(g, cutoff, removed[..n], QUERIES[n], removed[n]);
    }
  }

  lemma NextStageIsSafe(g: Graph, cutoff: int, removed: seq<set<Item>>, c: Category, del: set<Item>)
    requires SafeThroughout(g, cutoff, removed) && del <= Matching(c, Pruned(g, removed), cutoff)
    ensures SafeThroughout(g, cutoff, removed + [del])
  {
    DeletionIsSafe(g, Pruned(g, removed), c, cutoff, del);
    assert (removed + [del])[..|removed|] == removed;
  }

  /** A query that was not capped leaves no match behind. */
  lemma UncappedTurnFinishes(c: Category, g: Graph, cutoff: int, batchSize: nat, del: set<Item>)
    requires IsTurn(c, g, cutoff, batchSize, del) && |Matching(c, g, cutoff)| <= Cap(batchSize)
    ensures Matching(c, Remove(g, del), cutoff) == {}
  {
    SubsetCount(del, Matching(c, g, cutoff));
    RemoveLeavesRest(c, g, cutoff, del);
  }

  /** It stays without matches for the rest of the pass. */
  lemma {:induction false} FinishedStaysClean(g: Graph, cutoff: int, batchSize: nat, removed: seq<set<Item>>,
                                              c: Category)
    requires |removed| <= |QUERIES| && Rank(c) < |removed|
    requires IsPass(g, cutoff, batchSize, removed) && Uncapped(g, cutoff, batchSize, removed)
    ensures Matching(c, Pruned(g, removed), cutoff) == {}
    decreases |removed|
  {
    var n := |removed| - 1;
    var h := Pruned(g, removed[..n]);
    RankOfQuery(n);
    if Rank(c) == n {
      QueryOfRank(c);
      UncappedTurnFinishes(c, h, cutoff, batchSize, removed[n]);
    } else {
      FinishedStaysClean(g, cutoff, batchSize, removed[..n], c);
      StaysClean(c, QUERIES[n], h, cutoff, removed[n]);
    }
  }

  /** A whole pass in which no query was capped leaves nothing to delete. */
  lemma PassSettles(g: Graph, cutoff: int, batchSize: nat, removed: seq<set<Item>>)
    requires IsFullPass(g, cutoff, batchSize, removed)
    ensures Settled(Pruned(g, removed), cutoff)
  {
    forall c: Category
      ensures Matching(c, Pruned(g, removed), cutoff) == {}
    {
      QueryOfRank(c);
      FinishedStaysClean(g, cutoff, batchSize, removed, c);
    }
  }

  /** Pruning a settled graph again changes nothing. */
  lemma {:induction false} PassOnSettled(g: Graph, cutoff: int, batchSize: nat, removed: seq<set<Item>>)
    requires IsPass(g, cutoff, batchSize, removed) && Settled(g, cutoff)
    ensures Pruned(g, removed) == g && forall del :: del in removed ==> del == {}
    decreases |removed|
  {
    if removed != [] {
      var n := |removed| - 1;
      PassOnSettled(g, cutoff, batchSize, removed[..n]);
      assert Matching(QUERIES[n], g, cutoff) == {};
      RemoveNothing(g);
      SplitLast(removed);
    }
  }

  /** One uncapped pass is a fixpoint: a second with the same cutoff deletes nothing. */
  lemma PruneIsFixpoint(g: Graph, cutoff: int, batchSize: nat, again: nat,
                        removed: seq<set<Item>>, removed': seq<set<Item>>)
    requires IsFullPass(g, cutoff, batchSize, removed)
    requires IsPass(Pruned(g, removed), cutoff, again, removed')
    ensures forall del :: del in removed' ==> del == {}
    ensures Pruned(Pruned(g, removed), removed') == Pruned(g, removed)
  {
    PassSettles(g, cutoff, batchSize, removed);
    PassOnSettled(Pruned(g, removed), cutoff, again, removed');
  }

  /** What an uncapped pass leaves: exactly the fresh measurements, and nothing dangling. */
  lemma PruneLeavesFresh(g: Graph, cutoff: int, batchSize: nat, removed: seq<set<Item>>)
    requires Dominated(g) && NoDangling(g) && IsFullPass(g, cutoff, batchSize, removed)
    ensures var h := Pruned(g, removed);
      && NoDangling(h) && IsPart(h, g)
      && (forall k :: k in h.ping <==> k in g.ping && g.ping[k].lastSeen >= cutoff)
      && (forall k :: k in h.targets <==> k in g.targets && g.targets[k].lastSeen >= cutoff)
      && (forall k :: k in h.nextHop <==> k in g.nextHop && g.nextHop[k].lastSeen >= cutoff)
      && (forall k :: k in h.transits <==> k in g.transits && g.transits[k].lastSeen >= cutoff)
  {
    StagesAreSafe(g, cutoff, batchSize, removed);
    PassSettles(g, cutoff, batchSize, removed);
    SettledIsFresh(g, Pruned(g, removed), cutoff);
  }

  /** A settled part of a graph that lost nothing fresh is exactly its fresh measurements. */
  lemma SettledIsFresh(g: Graph, h: Graph, cutoff: int)
    requires Settled(h, cutoff) && IsPart(h, g) && KeepsFresh(g, h, cutoff)
    ensures forall k :: k in h.ping <==> k in g.ping && g.ping[k].lastSeen >= cutoff
    ensures forall k :: k in h.targets <==> k in g.targets && g.targets[k].lastSeen >= cutoff
    ensures forall k :: k in h.nextHop <==> k in g.nextHop && g.nextHop[k].lastSeen >= cutoff
    ensures forall k :: k in h.transits <==> k in g.transits && g.transits[k].lastSeen >= cutoff
  {
    NothingStale(h, cutoff);
  }

  lemma NothingStale(h: Graph, cutoff: int)
    requires Settled(h, cutoff)
    ensures forall k :: k in h.ping ==> h.ping[k].lastSeen >= cutoff
    ensures forall k :: k in h.targets ==> h.targets[k].lastSeen >= cutoff
    ensures forall k :: k in h.nextHop ==> h.nextHop[k].lastSeen >= cutoff
    ensures forall k :: k in h.transits ==> h.transits[k].lastSeen >= cutoff
  {
    forall k | k in h.ping && h.ping[k].lastSeen < cutoff
      ensures PingItem(k) in Matching(StalePing, h, cutoff)
    {
    }
    forall k | k in h.targets && h.targets[k].lastSeen < cutoff
      ensures TargetItem(k) in Matching(StaleTargets, h, cutoff)
    {
    }
    forall k | k in h.nextHop && h.nextHop[k].lastSeen < cutoff
      ensures HopItem(k) in Matching(StaleNextHop, h, cutoff)
    {
    }
    forall k | k in h.transits && h.transits[k].lastSeen < cutoff
      ensures TransitItem(k) in Matching(StaleTransits, h, cutoff)
    {
    }
  }

  // ---- the one loss of fresh data ------------------------------------------------------------------------

  /** A last_seen before the cutoff; one that was never set counts as 0. */
  predicate IsBefore(lastSeen: Option<int>, cutoff: int) {
    match lastSeen case Some(t) => t < cutoff case None => 0 < cutoff
  }

  /** The IP itself was not seen since the cutoff, and no fresh PING, TARGETS or NEXT_HOP touches it. */
  ghost predicate IpIsForgotten(g: Graph, addr: string, cutoff: int) {
    && addr in g.ips && IsBefore(g.ips[addr].lastSeen, cutoff)
    && (forall k :: k in g.ping && k.1 == addr ==> g.ping[k].lastSeen < cutoff)
    && (forall k :: k in g.targets && k.1 == addr ==> g.targets[k].lastSeen < cutoff)
    && (forall k :: k in g.nextHop && (k.0 == addr || k.1 == addr) ==> g.nextHop[k].lastSeen < cutoff)
  }

  lemma KeptIpIsNotForgotten(g: Graph, h: Graph, cutoff: int, addr: string)
    requires Matching(IdleIp, h, cutoff) == {} && NoDangling(h) && IsPart(h, g) && addr in h.ips
    requires forall k :: k in h.ping ==> h.ping[k].lastSeen >= cutoff
    requires forall k :: k in h.targets ==> h.targets[k].lastSeen >= cutoff
    requires forall k :: k in h.nextHop ==> h.nextHop[k].lastSeen >= cutoff
    ensures !IpIsForgotten(g, addr, cutoff)
  {
    assert IpItem(addr) !in Matching(IdleIp, h, cutoff);
    if IpIsIdle(h, addr) {
      assert Seen0(h.ips[addr].lastSeen) >= cutoff;
    }
  }

  lemma DeletedIpIsForgotten(g: Graph, h: Graph, cutoff: int, c: Category, addr: string)
    requires IpItem(addr) in Matching(c, h, cutoff) && KeepsFresh(g, h, cutoff) && IsPart(h, g)
    ensures IpIsForgotten(g, addr, cutoff)
  {
    assert IpIsIdle(h, addr);
  }

  /** No pass, capped or not, deletes an IP that is not forgotten. */
  lemma {:induction false} OnlyForgottenIpsGo(g: Graph, cutoff: int, batchSize: nat, removed: seq<set<Item>>,
                                              addr: string)
    requires Dominated(g) && NoDangling(g) && IsPass(g, cutoff, batchSize, removed)
    requires addr in g.ips && addr !in Pruned(g, removed).ips
    ensures IpIsForgotten(g, addr, cutoff)
    decreases |removed|
  {
    var n := |removed| - 1;
    if addr in Pruned(g, removed[..n]).ips {
      StagesAreSafe(g, cutoff, batchSize, removed[..n]);
      TurnForgetsIp(g, cutoff, removed[..n], QUERIES[n], removed[n], addr);
    } else {
      OnlyForgottenIpsGo(g, cutoff, batchSize, removed[..n], addr);
    }
  }

  lemma TurnForgetsIp(g: Graph, cutoff: int, removed: seq<set<Item>>, c: Category, del: set<Item>, addr: string)
    requires SafeThroughout(g, cutoff, removed) && del <= Matching(c, Pruned(g, removed), cutoff)
    requires addr in Pruned(g, removed).ips && addr !in Remove(Pruned(g, removed), del).ips
    ensures IpIsForgotten(g, addr, cutoff)
  {
    DeletedIpIsForgotten(g, Pruned(g, removed), cutoff, c, addr);
  }

  /** An uncapped pass deletes an IP exactly when it is forgotten. */
  lemma PruneForgetsIps(g: Graph, cutoff: int, batchSize: nat, removed: seq<set<Item>>, addr: string)
    requires Dominated(g) && NoDangling(g) && addr in g.ips && IsFullPass(g, cutoff, batchSize, removed)
    ensures addr !in Pruned(g, removed).ips <==> IpIsForgotten(g, addr, cutoff)
  {
    if addr in Pruned(g, removed).ips {
      StagesAreSafe(g, cutoff, batchSize, removed);
      PassSettles(g, cutoff, batchSize, removed);
      NothingStale(Pruned(g, removed), cutoff);
      KeptIpIsNotForgotten(g, Pruned(g, removed), cutoff, addr);
    } else {
      OnlyForgottenIpsGo(g, cutoff, batchSize, removed, addr);
    }
  }

  predicate ProbeIsForgotten(g: Graph, prb: int, cutoff: int) {
    prb in g.probes && IsBefore(g.probes[prb], cutoff)
  }

  /** No pass, capped or not, deletes a probe seen since the cutoff. */
  lemma {:induction false} OnlyForgottenProbesGo(g: Graph, cutoff: int, batchSize: nat, removed: seq<set<Item>>,
                                                 prb: int)
    requires Dominated(g) && NoDangling(g) && IsPass(g, cutoff, batchSize, removed)
    requires prb in g.probes && prb !in Pruned(g, removed).probes
    ensures ProbeIsForgotten(g, prb, cutoff)
    decreases |removed|
  {
    var n := |removed| - 1;
    if prb in Pruned(g, removed[..n]).probes {
      StagesAreSafe(g, cutoff, batchSize, removed[..n]);
      TurnForgetsProbe(g, cutoff, removed[..n], QUERIES[n], removed[n], prb);
    } else {
      OnlyForgottenProbesGo(g, cutoff, batchSize, removed[..n], prb);
    }
  }

  lemma TurnForgetsProbe(g: Graph, cutoff: int, removed: seq<set<Item>>, c: Category, del: set<Item>, prb: int)
    requires SafeThroughout(g, cutoff, removed) && del <= Matching(c, Pruned(g, removed), cutoff)
    requires ProbeItem(prb) in del
    ensures ProbeIsForgotten(g, prb, cutoff)
  {
    assert ProbeItem(prb) in Matching(c, Pruned(g, removed), cutoff);
  }

  /** What is left of a probe's measurements is fresh, and it was seen as late as they were. */
  lemma KeptProbeIsFresh(h: Graph, cutoff: int, prb: int)
    requires Settled(h, cutoff) && Dominated(h) && prb in h.probes
    ensures Seen0(h.probes[prb]) >= cutoff
  {
    NothingStale(h, cutoff);
    assert ProbeItem(prb) !in Matching(IdleProbe, h, cutoff);
  }

  /** An uncapped pass deletes a probe exactly when it was not seen since the cutoff. */
  lemma PruneForgetsProbes(g: Graph, cutoff: int, batchSize: nat, removed: seq<set<Item>>, prb: int)
    requires Dominated(g) && NoDangling(g) && prb in g.probes && IsFullPass(g, cutoff, batchSize, removed)
    ensures prb !in Pruned(g, removed).probes <==> ProbeIsForgotten(g, prb, cutoff)
  {
    if prb in Pruned(g, removed).probes {
      StagesAreSafe(g, cutoff, batchSize, removed);
      PassSettles(g, cutoff, batchSize, removed);
      KeptProbeIsFresh(Pruned(g, removed), cutoff, prb);
    } else {
      OnlyForgottenProbesGo(g, cutoff, batchSize, removed, prb);
    }
  }

  /** Not seen since the cutoff by its own last_seen, or, if that was never set, by that of its IP. */
  predicate LocationIsOld(g: Graph, k: (int, string), cutoff: int)
    requires k in g.located && k.1 in g.ips
  {
    IsBefore(if g.located[k].Some? then g.located[k] else g.ips[k.1].lastSeen, cutoff)
  }

  /** The location is old, or one of its two ends is forgotten. */
  ghost predicate LocationIsForgotten(g: Graph, k: (int, string), cutoff: int)
    requires k in g.located && k.1 in g.ips
  {
    LocationIsOld(g, k, cutoff) || ProbeIsForgotten(g, k.0, cutoff) || IpIsForgotten(g, k.1, cutoff)
  }

  /** No pass, capped or not, loses a location that is not forgotten. */
  lemma {:induction false} OnlyForgottenLocationsGo(g: Graph, cutoff: int, batchSize: nat, removed: seq<set<Item>>,
                                                    k: (int, string))
    requires Dominated(g) && NoDangling(g) && IsPass(g, cutoff, batchSize, removed)
    requires k in g.located && k !in Pruned(g, removed).located
    ensures LocationIsForgotten(g, k, cutoff)
    decreases |removed|
  {
    var n := |removed| - 1;
    if k in Pruned(g, removed[..n]).located {
      StagesAreSafe(g, cutoff, batchSize, removed[..n]);
      TurnForgetsLocation(g, cutoff, removed[..n], QUERIES[n], removed[n], k);
    } else {
      OnlyForgottenLocationsGo(g, cutoff, batchSize, removed[..n], k);
    }
  }

  lemma TurnForgetsLocation(g: Graph, cutoff: int, removed: seq<set<Item>>, c: Category, del: set<Item>,
                            k: (int, string))
    requires SafeThroughout(g, cutoff, removed) && del <= Matching(c, Pruned(g, removed), cutoff)
    requires k in Pruned(g, removed).located && LocatedGone(del, k)
    ensures k in g.located && k.1 in g.ips && LocationIsForgotten(g, k, cutoff)
  {
    var h := Pruned(g, removed);
    SameLocatedSeen(g, h, k);
    if ProbeItem(k.0) in del {
      TurnForgetsProbe(g, cutoff, removed, c, del, k.0);
    } else if IpItem(k.1) in del {
      TurnForgetsIp(g, cutoff, removed, c, del, k.1);
    } else {
      assert LocatedItem(k) in Matching(c, h, cutoff);
    }
  }

  lemma SameLocatedSeen(g: Graph, h: Graph, k: (int, string))
    requires IsPart(h, g) && NoDangling(h) && k in h.located
    ensures k in g.located && LocatedSeen(h, k) == LocatedSeen(g, k)
  {
  }

  lemma KeptLocationIsFresh(g: Graph, h: Graph, cutoff: int, k: (int, string))
    requires Settled(h, cutoff) && IsPart(h, g) && NoDangling(h) && k in h.located
    ensures k in g.located && k.1 in g.ips && !LocationIsOld(g, k, cutoff)
  {
    SameLocatedSeen(g, h, k);
    assert LocatedItem(k) !in Matching(StaleLocated, h, cutoff);
  }

  /** An uncapped pass deletes a location exactly when it or one of its two ends is forgotten. */
  lemma PruneForgetsLocations(g: Graph, cutoff: int, batchSize: nat, removed: seq<set<Item>>, k: (int, string))
    requires Dominated(g) && NoDangling(g) && k in g.located && IsFullPass(g, cutoff, batchSize, removed)
    ensures k !in Pruned(g, removed).located <==> LocationIsForgotten(g, k, cutoff)
  {
    if k in Pruned(g, removed).located {
      StagesAreSafe(g, cutoff, batchSize, removed);
      PassSettles(g, cutoff, batchSize, removed);
      KeptLocationIsFresh(g, Pruned(g, removed), cutoff, k);
      PruneForgetsProbes(g, cutoff, batchSize, removed, k.0);
      PruneForgetsIps(g, cutoff, batchSize, removed, k.1);
    } else {
      OnlyForgottenLocationsGo(g, cutoff, batchSize, removed, k);
    }
  }

  /**
    * A pass loses a fresh location only with a forgotten IP, even when queries were capped; an uncapped one
    * loses it exactly then.
    */
  lemma PruneLosesLocationExactly(g: Graph, cutoff: int, batchSize: nat, removed: seq<set<Item>>, k: (int, string))
    requires Dominated(g) && NoDangling(g) && k in g.located && g.located[k].Some? && g.located[k].value >= cutoff
    requires IsPass(g, cutoff, batchSize, removed)
    ensures k !in Pruned(g, removed).located ==> IpIsForgotten(g, k.1, cutoff)
    ensures IsFullPass(g, cutoff, batchSize, removed) ==>
      (k !in Pruned(g, removed).located <==> IpIsForgotten(g, k.1, cutoff))
  {
    if k !in Pruned(g, removed).located {
      OnlyForgottenLocationsGo(g, cutoff, batchSize, removed, k);
    }
    if IsFullPass(g, cutoff, batchSize, removed) {
      PruneForgetsLocations(g, cutoff, batchSize, removed, k);
    }
  }

  // ---- the ASes a pass leaves ----------------------------------------------------------------------------

  /** An IN_AS relationship goes only together with its IP: an AS that still has one is not idle. */
  lemma RemoveKeepsInAS(c: Category, g: Graph, cutoff: int, del: set<Item>, k: (string, int))
    requires NoDangling(g) && del <= Matching(c, g, cutoff) && k in g.inAS
    ensures k in Remove(g, del).inAS <==> k.0 in Remove(g, del).ips
  {
    assert AsItem(k.1) !in Matching(c, g, cutoff);
  }

  /** In every pass, capped or not, the IN_AS relationships left are those of the IPs left. */
  lemma {:induction false} InASGoesWithIp(g: Graph, cutoff: int, batchSize: nat, removed: seq<set<Item>>,
                                          k: (string, int))
    requires Dominated(g) && NoDangling(g) && IsPass(g, cutoff, batchSize, removed) && k in g.inAS
    ensures k in Pruned(g, removed).inAS <==> k.0 in Pruned(g, removed).ips
    decreases |removed|
  {
    if removed != [] {
      var n := |removed| - 1;
      InASGoesWithIp(g, cutoff, batchSize, removed[..n], k);
      StagesAreSafe(g, cutoff, batchSize, removed[..n]);
      if k in Pruned(g, removed[..n]).inAS {
        RemoveKeepsInAS(QUERIES[n], Pruned(g, removed[..n]), cutoff, removed[n], k);
      }
    }
  }

  lemma {:induction false} NoInASArises(g: Graph, removed: seq<set<Item>>)
    ensures Pruned(g, removed).inAS <= g.inAS
    decreases |removed|
  {
    if removed != [] {
      NoInASArises(g, removed[..|removed| - 1]);
    }
  }

  /** No address of the AS is still remembered, and no fresh TRANSITS touches it. */
  ghost predicate ASIsForgotten(g: Graph, asn: int, cutoff: int) {
    && (forall k :: k in g.inAS && k.1 == asn ==> IpIsForgotten(g, k.0, cutoff))
    && (forall k :: k in g.transits && (k.0 == asn || k.1 == asn) ==> g.transits[k].lastSeen < cutoff)
  }

  /** No pass, capped or not, deletes an AS that is not forgotten. */
  lemma OnlyForgottenASesGo(g: Graph, cutoff: int, batchSize: nat, removed: seq<set<Item>>, asn: int)
    requires Dominated(g) && NoDangling(g) && IsPass(g, cutoff, batchSize, removed)
    requires asn in g.ases && asn !in Pruned(g, removed).ases
    ensures ASIsForgotten(g, asn, cutoff)
  {
    StagesAreSafe(g, cutoff, batchSize, removed);
    forall k | k in g.inAS && k.1 == asn
      ensures IpIsForgotten(g, k.0, cutoff)
    {
      InASGoesWithIp(g, cutoff, batchSize, removed, k);
      OnlyForgottenIpsGo(g, cutoff, batchSize, removed, k.0);
    }
  }

  /** An uncapped pass deletes an AS exactly when it is forgotten. */
  lemma PruneForgetsASes(g: Graph, cutoff: int, batchSize: nat, removed: seq<set<Item>>, asn: int)
    requires Dominated(g) && NoDangling(g) && asn in g.ases && IsFullPass(g, cutoff, batchSize, removed)
    ensures asn !in Pruned(g, removed).ases <==> ASIsForgotten(g, asn, cutoff)
  {
    if asn in Pruned(g, removed).ases {
      KeptASIsNotForgotten(g, cutoff, batchSize, removed, asn);
    } else {
      OnlyForgottenASesGo(g, cutoff, batchSize, removed, asn);
    }
  }

  lemma KeptASIsNotForgotten(g: Graph, cutoff: int, batchSize: nat, removed: seq<set<Item>>, asn: int)
    requires Dominated(g) && NoDangling(g) && IsFullPass(g, cutoff, batchSize, removed)
    requires asn in Pruned(g, removed).ases
    ensures !ASIsForgotten(g, asn, cutoff)
  {
    var h := Pruned(g, removed);
    PassSettles(g, cutoff, batchSize, removed);
    PruneLeavesFresh(g, cutoff, batchSize, removed);
    forall k | k in h.inAS
      ensures k in g.inAS && !IpIsForgotten(g, k.0, cutoff)
    {
      KeptIpOfAS(g, cutoff, batchSize, removed, k);
    }
    KeptASIsBusy(h, cutoff, asn);
    BusyIsNotForgotten(g, h, cutoff, asn);
  }

  lemma KeptASIsBusy(h: Graph, cutoff: int, asn: int)
    requires Matching(IdleAS, h, cutoff) == {} && asn in h.ases
    ensures !ASIsIdle(h, asn)
  {
    assert AsItem(asn) !in Matching(IdleAS, h, cutoff);
  }

  lemma BusyIsNotForgotten(g: Graph, h: Graph, cutoff: int, asn: int)
    requires forall k :: k in h.inAS ==> k in g.inAS && !IpIsForgotten(g, k.0, cutoff)
    requires forall k :: k in h.transits ==> k in g.transits && g.transits[k].lastSeen >= cutoff
    requires !ASIsIdle(h, asn)
    ensures !ASIsForgotten(g, asn, cutoff)
  {
  }

  lemma KeptIpOfAS(g: Graph, cutoff: int, batchSize: nat, removed: seq<set<Item>>, k: (string, int))
    requires Dominated(g) && NoDangling(g) && IsFullPass(g, cutoff, batchSize, removed)
    requires k in Pruned(g, removed).inAS
    ensures k in g.inAS && !IpIsForgotten(g, k.0, cutoff)
  {
    NoInASArises(g, removed);
    InASGoesWithIp(g, cutoff, batchSize, removed, k);
    PruneForgetsIps(g, cutoff, batchSize, removed, k.0);
  }

  /** A probe located at "a" at time 100; then a traceroute of time 1 with the hops "a" and "b" arrives. */
  const PLACE := LocatedOp(1, "a", 100, 4, AsInfo(0, ""))

  const LATE_HOP := NextHopOp("a", "b", 1.0, 1, "ICMP", 4, AsInfo(0, ""), AsInfo(0, ""))

  const LATE_TRACE := UpsertNextHops(UpsertLocated(EMPTY_GRAPH, [PLACE]), [LATE_HOP])

  lemma LateTraceIsSound()
    ensures Dominated(LATE_TRACE) && NoDangling(LATE_TRACE)
  {
    var located, write, late := UpsertLocated(EMPTY_GRAPH, [PLACE]), Located([PLACE]), NextHops([LATE_HOP]);
    ExecuteDominates(EMPTY_GRAPH, write);
    ExecuteJoins(EMPTY_GRAPH, write);
    assert Execute(EMPTY_GRAPH, write) == located;
    ExecuteDominates(located, late);
    ExecuteJoins(located, late);
    assert Execute(located, late) == LATE_TRACE;
  }

  lemma LateTraceTables()
    ensures LATE_TRACE.located == map[(1, "a") := Some(100)]
    ensures LATE_TRACE.ping == map[] && LATE_TRACE.targets == map[]
    ensures LATE_TRACE.nextHop == map[("a", "b") := HopEdge(1.0, 1, "ICMP", 1)]
    ensures "a" in LATE_TRACE.ips && LATE_TRACE.ips["a"].lastSeen == Some(1)
  {
    FoldOne(Locate, EMPTY_GRAPH.located, PLACE);
    FoldOne(RaiseSource, EMPTY_GRAPH.ips, PLACE);
    var ips := RaiseSource(EMPTY_GRAPH.ips, PLACE);
    FoldOne(TouchFrom, ips, LATE_HOP);
    FoldOne(TouchTo, TouchFrom(ips, LATE_HOP), LATE_HOP);
    FoldOne(SeeHop, EMPTY_GRAPH.nextHop, LATE_HOP);
  }

  /**
   That does happen: a traceroute older than the location rewinds the IP's last_seen, and once
   its own edge is pruned the IP goes, and the fresh location with it.
   */
  lemma LateTraceLosesLocation(cutoff: int, batchSize: nat, removed: seq<set<Item>>)
    requires 2 <= cutoff <= 100
    requires IsFullPass(LATE_TRACE, cutoff, batchSize, removed)
    ensures (1, "a") in LATE_TRACE.located && LATE_TRACE.located[(1, "a")] == Some(100)
    ensures (1, "a") !in Pruned(LATE_TRACE, removed).located
  {
    LateTraceTables();
    LateTraceIsSound();
    assert IpIsForgotten(LATE_TRACE, "a", cutoff);
    PruneLosesLocationExactly(LATE_TRACE, cutoff, batchSize, removed, (1, "a"));
  }

  // ---- every run of writers and janitor -------------------------------------------------------------------

  /** One query on the shared graph: a write of some flush, or one batch of a prune category. */
  datatype Step = Write(q: Query) | Delete(c: Category, cutoff: int, del: set<Item>)

  predicate Enabled(g: Graph, s: Step) {
    s.Write? || s.del <= Matching(s.c, g, s.cutoff)
  }

  function Effect(g: Graph, s: Step): Graph {
    match s case Write(q) => Execute(g, q) case Delete(_, _, del) => Remove(g, del)
  }

  /** The graphs a run goes through, starting from an empty one, queries interleaved in any way. */
  ghost predicate IsRun(gs: seq<Graph>, steps: seq<Step>) {
    && |gs| == |steps| + 1 && gs[0] == EMPTY_GRAPH
    && forall i :: 0 <= i < |steps| ==> Enabled(gs[i], steps[i]) && gs[i + 1] == Effect(gs[i], steps[i])
  }

  /** In every run, every graph is well formed, and no deletion loses a fresh relationship. */
  lemma {:induction false} RunIsSafe(gs: seq<Graph>, steps: seq<Step>, i: nat)
    requires IsRun(gs, steps) && i < |gs|
    ensures Dominated(gs[i]) && NoDangling(gs[i])
    ensures i < |steps| && steps[i].Delete? ==>
      KeepsFresh(gs[i], gs[i + 1], steps[i].cutoff) && IsPart(gs[i + 1], gs[i])
    decreases i
  {
    if i > 0 {
      RunIsSafe(gs, steps, i - 1);
      var g := gs[i - 1];
      assert gs[i - 1 + 1] == Effect(g, steps[i - 1]);
      match steps[i - 1]
      case Write(q) =>
        ExecuteDominates(g, q);
        ExecuteJoins(g, q);
      case Delete(_, _, del) =>
        RemoveKeepsShape(g, del);
    }
    if i < |steps| && steps[i].Delete? {
      RemoveKeepsFresh(steps[i].c, gs[i], steps[i].cutoff, steps[i].del);
      RemoveIsPart(gs[i], steps[i].del);
    }
  }

  // ---- the janitor ------------------------------------------------------------------------------------------

  datatype PruneStats = PruneStats(relationships: nat, nodes: nat)

  /** The summed sizes of the deletions from query `i` on, up to query `j`. */
  function Deleted(removed: seq<set<Item>>, i: nat, j: nat): nat
    requires i <= j <= |removed|
    decreases j
  {
    if i == j then 0 else Deleted(removed, i, j - 1) + |removed[j - 1]|
  }

  /** Any `limit` of the matches, or all of them. */
  method TakeItems(pool: set<Item>, limit: nat) returns (del: set<Item>)
    ensures del <= pool && |del| == Min(limit, |pool|)
  {
    del := {};
    var rest := pool;
    while |del| < limit && rest != {}
      invariant del == pool - rest && rest <= pool && |del| <= limit && |del| + |rest| == |pool|
    {
      var x :| x in rest;
      del, rest := del + {x}, rest - {x};
    }
  }

  class Store {
    var graph: Graph

    constructor (graph: Graph)
      ensures this.graph == graph
    {
      this.graph := graph;
    }

    /** One batch: delete at most `limit` of the matches and tell how many that were. */
    method DeleteBatch(c: Category, cutoff: int, limit: nat, ghost batch: nat, ghost g: Graph, ghost removed: set<Item>)
      returns (n: nat, ghost removed': set<Item>)
      requires batch < MAX_PRUNE_BATCHES && graph == Remove(g, removed)
      requires IsPartOfTurn(c, g, cutoff, limit, batch, removed)
      modifies this
      ensures graph == Remove(g, removed') && |removed'| == |removed| + n
      ensures n < limit || batch + 1 == MAX_PRUNE_BATCHES ==> IsTurn(c, g, cutoff, limit, removed')
      ensures n >= limit ==> IsPartOfTurn(c, g, cutoff, limit, batch + 1, removed')
    {
      var taken := TakeItems(Matching(c, graph, cutoff), limit);
      BatchNext(c, g, cutoff, limit, batch, removed, taken);
      graph := Remove(graph, taken);
      n, removed' := |taken|, removed + taken;
    }

    /** Delete what a query matches, in batches, until one comes up short or the batches run out. */
    method PruneBatches(c: Category, cutoff: int, batchSize: nat) returns (total: nat, ghost removed: set<Item>)
      requires batchSize > 0
      modifies this
      ensures graph == Remove(old(graph), removed)
      ensures IsTurn(c, old(graph), cutoff, batchSize, removed)
      ensures total == |removed| == Min(100 * batchSize, |Matching(c, old(graph), cutoff)|)
    {
      total, removed := 0, {};
      ghost var g := graph;
      NothingTaken(c, g, cutoff, batchSize);
      for batch := 0 to MAX_PRUNE_BATCHES
        invariant graph == Remove(g, removed) && total == |removed|
        invariant IsPartOfTurn(c, g, cutoff, batchSize, batch, removed)
        invariant batch == MAX_PRUNE_BATCHES ==> IsTurn(c, g, cutoff, batchSize, removed)
      {
        var n;
        n, removed := DeleteBatch(c, cutoff, batchSize, batch, g, removed);
        total := total + n;
        if n < batchSize {
          return;
        }
      }
    }

    /** Run the fixed queries in order and count what they delete. */
    method Prune(cutoff: int, batchSize: int) returns (r: Result<PruneStats, string>, ghost removed: seq<set<Item>>)
      modifies this
      ensures r.Failure? <==> cutoff <= 0 || batchSize < 1 || batchSize > 10_000
      ensures r.Failure? ==> graph == old(graph)
      ensures r.Success? ==>
        && |removed| == |QUERIES| && IsPass(old(graph), cutoff, batchSize, removed)
        && graph == Pruned(old(graph), removed)
        && r.value == PruneStats(Deleted(removed, 0, 5), Deleted(removed, 5, 8))
        // what is gone is counted, but for the locations and IN_AS relationships that went with a node
        && r.value.relationships ==
             Measured(old(graph)) - Measured(graph) + |old(graph).located| - |Pruned(old(graph), removed[..5]).located|
        && r.value.nodes == Nodes(old(graph)) - Nodes(graph)
    {
      removed := [];
      if cutoff <= 0 {
        return Failure("invalid prune cutoff"), [];
      }
      if batchSize < 1 || batchSize > 10_000 {
        return Failure("invalid prune batch size"), [];
      }
      var relationships, nodes := 0, 0;
      for i := 0 to |REL_QUERIES|
        invariant |removed| == i && IsPass(old(graph), cutoff, batchSize, removed)
        invariant graph == Pruned(old(graph), removed)
        invariant relationships == Deleted(removed, 0, i)
      {
        ghost var done;
        var n;
        n, done := PruneBatches(REL_QUERIES[i], cutoff, batchSize);
        PassNext(old(graph), cutoff, batchSize, removed, done);
        DeletedNext(removed, done, 0);
        removed := removed + [done];
        relationships := relationships + n;
      }
      for i := 0 to |NODE_QUERIES|
        invariant |removed| == 5 + i && IsPass(old(graph), cutoff, batchSize, removed)
        invariant graph == Pruned(old(graph), removed)
        invariant relationships == Deleted(removed, 0, 5) && nodes == Deleted(removed, 5, 5 + i)
      {
        ghost var done;
        var n;
        n, done := PruneBatches(NODE_QUERIES[i], cutoff, batchSize);
        PassNext(old(graph), cutoff, batchSize, removed, done);
        DeletedNext(removed, done, 5);
        DeletedKept(removed, done, 0, 5);
        removed := removed + [done];
        nodes := nodes + n;
      }
      DeletionsAreCounted(old(graph), cutoff, batchSize, removed);
      r := Success(PruneStats(relationships, nodes));
    }
  }

  /** `removed` is so many full batches of the matches. */
  ghost predicate IsPartOfTurn(c: Category, g: Graph, cutoff: int, batchSize: nat, batches: nat, removed: set<Item>) {
    && removed <= Matching(c, g, cutoff)
    && |removed| == Quota(batches, batchSize)
  }

  lemma NothingTaken(c: Category, g: Graph, cutoff: int, batchSize: nat)
    ensures Remove(g, {}) == g && IsPartOfTurn(c, g, cutoff, batchSize, 0, {})
  {
    RemoveNothing(g);
  }

  /** One more batch of a category: a short one, or the last, ends the turn. */
  lemma BatchNext(c: Category, g: Graph, cutoff: int, batchSize: nat, batch: nat, removed: set<Item>, taken: set<Item>)
    requires batch < MAX_PRUNE_BATCHES && IsPartOfTurn(c, g, cutoff, batchSize, batch, removed)
    requires var rest := Matching(c, Remove(g, removed), cutoff); taken <= rest && |taken| == Min(batchSize, |rest|)
    ensures Remove(Remove(g, removed), taken) == Remove(g, removed + taken)
    ensures |removed + taken| == |removed| + |taken|
    ensures |taken| < batchSize || batch + 1 == MAX_PRUNE_BATCHES ==> IsTurn(c, g, cutoff, batchSize, removed + taken)
    ensures |taken| >= batchSize ==> IsPartOfTurn(c, g, cutoff, batchSize, batch + 1, removed + taken)
  {
    RemoveTwice(g, removed, taken);
    RemoveLeavesRest(c, g, cutoff, removed);
    QuotaTaken(Matching(c, g, cutoff), removed, taken, batch, batchSize);
  }

  lemma QuotaTaken<T>(all: set<T>, removed: set<T>, taken: set<T>, batch: nat, batchSize: nat)
    requires batch < MAX_PRUNE_BATCHES && removed <= all && |removed| == Quota(batch, batchSize)
    requires taken <= all - removed && |taken| == Min(batchSize, |all - removed|)
    ensures removed + taken <= all && |removed + taken| == |removed| + |taken|
    ensures |taken| < batchSize || batch + 1 == MAX_PRUNE_BATCHES ==>
      |removed + taken| == Min(Cap(batchSize), |all|)
    ensures |taken| >= batchSize ==> |removed + taken| == Quota(batch + 1, batchSize)
  {
    MoreTaken(all, removed, taken);
    NextQuota(batch, batchSize, |taken|, |all|);
  }

  /** What so many full batches delete. */
  function Quota(batches: nat, batchSize: nat): nat {
    if batches == 0 then 0 else Quota(batches - 1, batchSize) + batchSize
  }

  lemma {:induction false} QuotaIsProduct(batches: nat, batchSize: nat)
    ensures Quota(batches, batchSize) == batches * batchSize
  {
    if batches > 0 {
      QuotaIsProduct(batches - 1, batchSize);
    }
  }

  lemma {:induction false} QuotaGrows(batches: nat, more: nat, batchSize: nat)
    requires batches <= more
    ensures Quota(batches, batchSize) <= Quota(more, batchSize)
    decreases more
  {
    if batches < more {
      QuotaGrows(batches, more - 1, batchSize);
    }
  }

  /** A full batch uses up one more quota; a short one means that nothing is left. */
  lemma NextQuota(batch: nat, batchSize: nat, n: nat, size: nat)
    requires batch < MAX_PRUNE_BATCHES && Quota(batch, batchSize) <= size
    requires n == Min(batchSize, size - Quota(batch, batchSize))
    ensures n < batchSize ==> Quota(batch, batchSize) + n == Min(Cap(batchSize), size)
    ensures n >= batchSize ==> Quota(batch, batchSize) + n == Quota(batch + 1, batchSize) <= size
    ensures batch + 1 == MAX_PRUNE_BATCHES ==> Quota(batch, batchSize) + n == Min(Cap(batchSize), size)
  {
    QuotaGrows(batch + 1, MAX_PRUNE_BATCHES, batchSize);
    QuotaIsProduct(MAX_PRUNE_BATCHES, batchSize);
  }

  lemma MoreTaken<T>(all: set<T>, taken: set<T>, more: set<T>)
    requires taken <= all && more <= all - taken
    ensures (all - taken) - more == all - (taken + more)
    ensures |taken + more| == |taken| + |more| <= |all|
    ensures |all - taken| == |all| - |taken|
  {
    SubsetCount(taken + more, all);
    assert all == taken + (all - taken);
  }

  /** One more query has its turn. */
  lemma PassNext(g: Graph, cutoff: int, batchSize: nat, removed: seq<set<Item>>, done: set<Item>)
    requires IsPass(g, cutoff, batchSize, removed) && |removed| < |QUERIES|
    requires IsTurn(QUERIES[|removed|], Pruned(g, removed), cutoff, batchSize, done)
    ensures IsPass(g, cutoff, batchSize, removed + [done])
    ensures Pruned(g, removed + [done]) == Remove(Pruned(g, removed), done)
  {
    assert (removed + [done])[..|removed|] == removed;
  }

  lemma {:induction false} DeletedKept(removed: seq<set<Item>>, done: set<Item>, i: nat, j: nat)
    requires i <= j <= |removed|
    ensures Deleted(removed + [done], i, j) == Deleted(removed, i, j)
    decreases j
  {
    if i < j {
      DeletedKept(removed, done, i, j - 1);
    }
  }

  lemma DeletedNext(removed: seq<set<Item>>, done: set<Item>, i: nat)
    requires i <= |removed|
    ensures Deleted(removed + [done], i, |removed| + 1) == Deleted(removed, i, |removed|) + |done|
  {
    DeletedKept(removed, done, i, |removed|);
  }

  // ---- what the counts mean -------------------------------------------------------------------------------

  /** How many PING, TARGETS, NEXT_HOP and TRANSITS relationships there are. */
  function Measured(g: Graph): int {
    |g.ping| + |g.targets| + |g.nextHop| + |g.transits|
  }

  /** How many probes, IPs and ASes there are. */
  function Nodes(g: Graph): int {
    |g.probes| + |g.ips| + |g.ases|
  }

  /** A node is deleted only when it takes part in no measurement, so no measurement goes with it. */
  lemma NodesTakeNoMeasurement(c: Category, g: Graph, cutoff: int, del: set<Item>)
    requires del <= Matching(c, g, cutoff)
    ensures var h := Remove(g, del);
      && (c == IdleProbe ==> h.ping == g.ping && h.targets == g.targets)
      && (c == IdleIp ==> h.ping == g.ping && h.targets == g.targets && h.nextHop == g.nextHop)
      && (c == IdleAS ==> h.transits == g.transits && h.inAS == g.inAS)
  {
    match c
    case IdleProbe =>
      WithoutNone(g.ping, k => PingGone(del, k));
      WithoutNone(g.targets, k => TargetGone(del, k));
    case IdleIp =>
      IdleIpsAreUnused(g, cutoff, del);
    case IdleAS =>
      WithoutNone(g.transits, k => TransitGone(del, k));
      assert Remove(g, del).inAS == g.inAS;
    case _ =>
  }

  lemma {:induction false} AsManyItems<K(!new)>(keys: set<K>, item: K -> Item, del: set<Item>)
    requires forall j, k :: item(j) == item(k) ==> j == k
    requires del == set k | k in keys :: item(k)
    ensures |del| == |keys|
    decreases keys
  {
    if k :| k in keys {
      AsManyItems(keys - {k}, item, del - {item(k)});
      assert |del - {item(k)}| == |del| - 1;
    } else {
      assert del == {};
    }
  }

  /** Deleting items one to one with rows of a table makes it that much smaller. */
  lemma RowsGone<K(!new), V>(m: map<K, V>, gone: K -> bool, item: K -> Item, del: set<Item>)
    requires forall j, k :: item(j) == item(k) ==> j == k
    requires del == set k | k in m && gone(k) :: item(k)
    ensures |Without(m, gone)| == |m| - |del|
  {
    var keys := set k | k in m && gone(k);
    assert del == set k | k in keys :: item(k);
    AsManyItems(keys, item, del);
    assert Without(m, gone).Keys == m.Keys - keys;
    assert |m.Keys| == |keys| + |m.Keys - keys|;
  }

  lemma PingsGone(g: Graph, cutoff: int, del: set<Item>)
    requires del <= Matching(StalePing, g, cutoff)
    ensures |Remove(g, del).ping| == |g.ping| - |del|
  {
    RowsGone(g.ping, k => PingGone(del, k), k => PingItem(k), del);
  }

  lemma TargetsGone(g: Graph, cutoff: int, del: set<Item>)
    requires del <= Matching(StaleTargets, g, cutoff)
    ensures |Remove(g, del).targets| == |g.targets| - |del|
  {
    RowsGone(g.targets, k => TargetGone(del, k), k => TargetItem(k), del);
  }

  lemma HopsGone(g: Graph, cutoff: int, del: set<Item>)
    requires del <= Matching(StaleNextHop, g, cutoff)
    ensures |Remove(g, del).nextHop| == |g.nextHop| - |del|
  {
    RowsGone(g.nextHop, k => HopGone(del, k), k => HopItem(k), del);
  }

  lemma TransitsGone(g: Graph, cutoff: int, del: set<Item>)
    requires del <= Matching(StaleTransits, g, cutoff)
    ensures |Remove(g, del).transits| == |g.transits| - |del|
  {
    RowsGone(g.transits, k => TransitGone(del, k), k => TransitItem(k), del);
  }

  lemma LocationsGone(g: Graph, cutoff: int, del: set<Item>)
    requires del <= Matching(StaleLocated, g, cutoff)
    ensures |Remove(g, del).located| == |g.located| - |del|
  {
    RowsGone(g.located, k => LocatedGone(del, k), k => LocatedItem(k), del);
  }

  lemma ProbesGone(g: Graph, cutoff: int, del: set<Item>)
    requires del <= Matching(IdleProbe, g, cutoff)
    ensures |Remove(g, del).probes| == |g.probes| - |del|
  {
    RowsGone(g.probes, k => ProbeItem(k) in del, k => ProbeItem(k), del);
  }

  lemma IpsGone(g: Graph, cutoff: int, del: set<Item>)
    requires del <= Matching(IdleIp, g, cutoff)
    ensures |Remove(g, del).ips| == |g.ips| - |del|
  {
    RowsGone(g.ips, k => IpItem(k) in del, k => IpItem(k), del);
  }

  lemma ASesGone(g: Graph, cutoff: int, del: set<Item>)
    requires del <= Matching(IdleAS, g, cutoff)
    ensures |Remove(g, del).ases| == |g.ases| - |del|
  {
    RowsGone(g.ases, k => AsItem(k) in del, k => AsItem(k), del);
  }

  lemma OtherNodesStay(c: Category, g: Graph, cutoff: int, del: set<Item>)
    requires del <= Matching(c, g, cutoff)
    ensures var h := Remove(g, del);
      && (c != IdleProbe ==> h.probes == g.probes)
      && (c != IdleIp ==> h.ips == g.ips)
      && (c != IdleAS ==> h.ases == g.ases)
  {
    if c != IdleProbe {
      WithoutNone(g.probes, p => ProbeItem(p) in del);
    }
    if c != IdleIp {
      WithoutNone(g.ips, a => IpItem(a) in del);
    }
    if c != IdleAS {
      WithoutNone(g.ases, n => AsItem(n) in del);
    }
  }

  lemma OtherProbeRelationshipsStay(c: Category, g: Graph, cutoff: int, del: set<Item>)
    requires del <= Matching(c, g, cutoff) && Rank(c) < 5
    ensures var h := Remove(g, del);
      && (c != StalePing ==> h.ping == g.ping)
      && (c != StaleTargets ==> h.targets == g.targets)
      && (c != StaleLocated ==> h.located == g.located)
  {
    if c != StalePing {
      WithoutNone(g.ping, k => PingGone(del, k));
    }
    if c != StaleTargets {
      WithoutNone(g.targets, k => TargetGone(del, k));
    }
    if c != StaleLocated {
      WithoutNone(g.located, k => LocatedGone(del, k));
    }
  }

  lemma OtherLinksStay(c: Category, g: Graph, cutoff: int, del: set<Item>)
    requires del <= Matching(c, g, cutoff) && Rank(c) < 5
    ensures var h := Remove(g, del);
      && (c != StaleNextHop ==> h.nextHop == g.nextHop)
      && (c != StaleTransits ==> h.transits == g.transits)
  {
    if c != StaleNextHop {
      WithoutNone(g.nextHop, k => HopGone(del, k));
    }
    if c != StaleTransits {
      WithoutNone(g.transits, k => TransitGone(del, k));
    }
  }

  /** A relationship query takes away so many relationships and no node. */
  lemma RelationshipsAreCounted(c: Category, g: Graph, cutoff: int, del: set<Item>)
    requires del <= Matching(c, g, cutoff) && Rank(c) < 5
    ensures var h := Remove(g, del);
      Nodes(h) == Nodes(g) && Measured(h) + |h.located| == Measured(g) + |g.located| - |del|
  {
    OtherNodesStay(c, g, cutoff, del);
    OneTableShrinks(c, g, cutoff, del);
  }

  lemma OneTableShrinks(c: Category, g: Graph, cutoff: int, del: set<Item>)
    requires del <= Matching(c, g, cutoff) && Rank(c) < 5
    ensures var h := Remove(g, del); Measured(h) + |h.located| == Measured(g) + |g.located| - |del|
  {
    OtherProbeRelationshipsStay(c, g, cutoff, del);
    OtherLinksStay(c, g, cutoff, del);
    match c
    case StalePing => PingsGone(g, cutoff, del);
    case StaleTargets => TargetsGone(g, cutoff, del);
    case StaleNextHop => HopsGone(g, cutoff, del);
    case StaleTransits => TransitsGone(g, cutoff, del);
    case StaleLocated => LocationsGone(g, cutoff, del);
  }

  lemma NoTransitGoes(c: Category, g: Graph, cutoff: int, del: set<Item>)
    requires del <= Matching(c, g, cutoff) && Rank(c) >= 5
    ensures Remove(g, del).transits == g.transits
    ensures c == IdleAS ==> Remove(g, del).nextHop == g.nextHop && Remove(g, del).ping == g.ping
    ensures c == IdleAS ==> Remove(g, del).targets == g.targets
    ensures c == IdleProbe ==> Remove(g, del).nextHop == g.nextHop
  {
    WithoutNone(g.transits, k => TransitGone(del, k));
    if c == IdleAS {
      WithoutNone(g.nextHop, k => HopGone(del, k));
      WithoutNone(g.ping, k => PingGone(del, k));
      WithoutNone(g.targets, k => TargetGone(del, k));
    } else if c == IdleProbe {
      WithoutNone(g.nextHop, k => HopGone(del, k));
    }
  }

  /** A node query takes away so many nodes and no measurement. */
  lemma NodesAreCounted(c: Category, g: Graph, cutoff: int, del: set<Item>)
    requires del <= Matching(c, g, cutoff) && Rank(c) >= 5
    ensures var h := Remove(g, del); Measured(h) == Measured(g) && Nodes(h) == Nodes(g) - |del|
  {
    NodesTakeNoMeasurement(c, g, cutoff, del);
    NoTransitGoes(c, g, cutoff, del);
    OtherNodesStay(c, g, cutoff, del);
    match c
    case IdleProbe => ProbesGone(g, cutoff, del);
    case IdleIp => IpsGone(g, cutoff, del);
    case IdleAS => ASesGone(g, cutoff, del);
  }

  lemma {:induction false} CountedSoFar(g: Graph, cutoff: int, batchSize: nat, removed: seq<set<Item>>)
    requires IsPass(g, cutoff, batchSize, removed) && |removed| <= 5
    ensures var h := Pruned(g, removed);
      && Nodes(h) == Nodes(g)
      && Measured(h) + |h.located| == Measured(g) + |g.located| - Deleted(removed, 0, |removed|)
    decreases |removed|
  {
    if removed != [] {
      var n := |removed| - 1;
      CountedSoFar(g, cutoff, batchSize, removed[..n]);
      RankOfQuery(n);
      RelationshipsAreCounted(QUERIES[n], Pruned(g, removed[..n]), cutoff, removed[n]);
      SplitLast(removed);
      DeletedNext(removed[..n], removed[n], 0);
    }
  }

  /** `m` is where the node queries began. */
  lemma {:induction false} CountedNodes(g: Graph, m: Graph, cutoff: int, batchSize: nat, removed: seq<set<Item>>)
    requires IsPass(g, cutoff, batchSize, removed) && 5 <= |removed| && m == Pruned(g, removed[..5])
    ensures Measured(Pruned(g, removed)) == Measured(m)
    ensures Nodes(Pruned(g, removed)) == Nodes(m) - Deleted(removed, 5, |removed|)
    decreases |removed|
  {
    if |removed| == 5 {
      WholePrefix(removed);
    } else {
      var n := |removed| - 1;
      var init := removed[..n];
      assert init[..5] == removed[..5];
      CountedNodes(g, m, cutoff, batchSize, init);
      SplitLast(removed);
      NextNodesAreCounted(QUERIES[n], Pruned(g, init), cutoff, init, removed[n]);
    }
  }

  lemma NextNodesAreCounted(c: Category, h: Graph, cutoff: int, init: seq<set<Item>>, del: set<Item>)
    requires 5 <= |init| < |QUERIES| && c == QUERIES[|init|] && del <= Matching(c, h, cutoff)
    ensures Measured(Remove(h, del)) == Measured(h)
    ensures Nodes(Remove(h, del)) + Deleted(init + [del], 5, |init + [del]|) == Nodes(h) + Deleted(init, 5, |init|)
  {
    RankOfQuery(|init|);
    NodesAreCounted(c, h, cutoff, del);
    DeletedNext(init, del, 5);
  }

  lemma {:induction false} PassPrefix(g: Graph, cutoff: int, batchSize: nat, removed: seq<set<Item>>, n: nat)
    requires IsPass(g, cutoff, batchSize, removed) && n <= |removed|
    ensures IsPass(g, cutoff, batchSize, removed[..n])
    decreases |removed|
  {
    if n == |removed| {
      WholePrefix(removed);
    } else {
      PassPrefix(g, cutoff, batchSize, removed[..|removed| - 1], n);
      assert removed[..|removed| - 1][..n] == removed[..n];
    }
  }

  /**
    * In every pass, capped or not, the counts are exact: the measurements gone and the locations that the
    * fifth query deleted are the relationships counted, and the nodes gone are the nodes counted.
    */
  lemma DeletionsAreCounted(g: Graph, cutoff: int, batchSize: nat, removed: seq<set<Item>>)
    requires IsPass(g, cutoff, batchSize, removed) && |removed| == 8
    ensures var m, h := Pruned(g, removed[..5]), Pruned(g, removed);
      && Deleted(removed, 0, 5) == Measured(g) - Measured(h) + |g.located| - |m.located|
      && Deleted(removed, 5, 8) == Nodes(g) - Nodes(h)
  {
    PassPrefix(g, cutoff, batchSize, removed, 5);
    CountedSoFar(g, cutoff, batchSize, removed[..5]);
    CountedNodes(g, Pruned(g, removed[..5]), cutoff, batchSize, removed);
    DeletedPrefix(removed, 0, 5);
  }

  lemma {:induction false} DeletedPrefix(removed: seq<set<Item>>, i: nat, j: nat)
    requires i <= j <= |removed|
    ensures Deleted(removed[..j], i, j) == Deleted(removed, i, j)
    decreases |removed|
  {
    if j == |removed| {
      WholePrefix(removed);
    } else {
      var init, last := removed[..|removed| - 1], removed[|removed| - 1];
      DeletedPrefix(init, i, j);
      assert init[..j] == removed[..j];
      SplitLast(removed);
      DeletedKept(init, last, i, j);
    }
  }
}
