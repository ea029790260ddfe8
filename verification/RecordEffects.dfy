/** What one record, applied to a graph, shows in it. */
module RecordEffects {
  import opened HopGraph
  import opened HopParsing
  import opened Sequences
  import opened Topology
  import opened TopologyWriter
  import opened Wrappers

  /** The later of a last_seen and a new sighting; a missing one is earlier than any sighting. */
  function Raised(lastSeen: Option<int>, ts: int): Option<int> {
    if lastSeen.Some? && lastSeen.value > ts then lastSeen else Some(ts)
  }

  /** The later of a last_seen and a new sighting; a missing one counts as 0. */
  function RaisedFrom0(lastSeen: Option<int>, ts: int): Option<int> {
    match lastSeen
    case Some(t) => Some(if t > ts then t else ts)
    case None => if 0 > ts then None else Some(ts)
  }

  /** The probe is seen at `ts` or later. */
  function SeenAt(probes: map<int, Option<int>>, prb: int, ts: int): map<int, Option<int>> {
    probes[prb := RaisedFrom0(if prb in probes then probes[prb] else None, ts)]
  }

  lemma SeenTwice(probes: map<int, Option<int>>, prb: int, ts: int)
    ensures SeenAt(SeenAt(probes, prb, ts), prb, ts) == SeenAt(probes, prb, ts)
  {
  }

  // ---- where the probe is --------------------------------------------------------------------------

  /** The probe is located at the one address `from`, seen at `ts` or later; other probes are where they were. */
  ghost predicate IsRelocated(g: Graph, h: Graph, prb: int, from: string, ts: int, info: AsInfo) {
    && h.sources == g.sources[prb := Source(from, info.number, info.org)]
    && (forall k :: k in h.located <==> k == (prb, from) || (k in g.located && k.0 != prb))
    && (forall k :: k in h.located && k.0 != prb ==> h.located[k] == g.located[k])
    && h.located[(prb, from)] == RaisedFrom0(if (prb, from) in g.located then g.located[(prb, from)] else None, ts)
  }

  lemma PlaceShows(g: Graph, op: LocatedOp)
    ensures var h := UpsertLocated(g, [op]);
      && IsRelocated(g, h, op.prb, op.fromIP, op.ts, op.fromAS)
      && h.probes == SeenAt(g.probes, op.prb, op.ts)
      && h.ips == Raise(g.ips, op.fromIP, op.af, op.ts)
  {
    FoldOne(Locate, g.located, op);
    FoldOne(SetSource, g.sources, op);
    FoldOne(RaiseSource, g.ips, op);
    OneOfOne(LocatedSighting, op);
    FoldOne(See, g.probes, Sighting(op.prb, op.ts));
  }

  /** What happens to other tables does not move the probe. */
  lemma StaysRelocated(g: Graph, g1: Graph, h: Graph, prb: int, from: string, ts: int, info: AsInfo)
    requires IsRelocated(g, g1, prb, from, ts, info) && h.sources == g1.sources && h.located == g1.located
    ensures IsRelocated(g, h, prb, from, ts, info)
  {
  }

  lemma RelocatedFrom(g: Graph, g1: Graph, h: Graph, prb: int, from: string, ts: int, info: AsInfo)
    requires g1.sources == g.sources && g1.located == g.located && IsRelocated(g1, h, prb, from, ts, info)
    ensures IsRelocated(g, h, prb, from, ts, info)
  {
  }

  lemma OneOfOne<A, B>(f: A -> seq<B>, x: A)
    ensures FlatMap(f, [x]) == f(x)
  {
    assert [x][..0] == [];
    NothingLeft(f(x));
  }

  // ---- rejected records ----------------------------------------------------------------------------------

  /** Only a traceroute with a readable payload and a ping with one and a target are taken; others change nothing. */
  lemma RejectedExactly(asn: string -> Option<AsInfo>, g: Graph, r: Record)
    ensures RecordOps(asn, r).Some? <==>
      (r.kind == "traceroute" && r.trace.Some?) || (r.kind == "ping" && r.ping.Some? && r.dst != "")
    ensures RecordOps(asn, r).None? ==> Apply(asn, g, r) == g
  {
  }

  // ---- addresses -------------------------------------------------------------------------------------

  function LastSeen(ips: map<string, Ip>, a: string): Option<int> {
    if a in ips then ips[a].lastSeen else None
  }

  /** Writing AS numbers adds exactly the named pairs and leaves every last_seen alone. */
  lemma {:induction false} PairsShow(g: Graph, rows: seq<InASOp>)
    ensures var h := UpsertInAS(g, rows);
      && h == g.(ips := h.ips, ases := h.ases, inAS := h.inAS)
      && (forall a :: LastSeen(h.ips, a) == LastSeen(g.ips, a))
      && (forall k :: k in h.inAS <==> k in g.inAS || InASOp(k.0, k.1, "") in Pairs(rows))
    decreases |rows|
  {
    if rows != [] {
      var n := |rows| - 1;
      PairsShow(g, rows[..n]);
    }
  }

  /** The rows without the names of the ASes. */
  function Pairs(rows: seq<InASOp>): set<InASOp>
    decreases |rows|
  {
    if rows == [] then {} else Pairs(rows[..|rows| - 1]) + {rows[|rows| - 1].(org := "")}
  }

  lemma {:induction false} PairsOfBoth(xs: seq<InASOp>, ys: seq<InASOp>)
    ensures Pairs(xs + ys) == Pairs(xs) + Pairs(ys)
    decreases |ys|
  {
    if ys == [] {
      NothingRight(xs);
    } else {
      assert (xs + ys)[..|xs| + |ys| - 1] == xs + ys[..|ys| - 1];
      PairsOfBoth(xs, ys[..|ys| - 1]);
    }
  }

  lemma PairsOfRow(addr: string, info: AsInfo)
    ensures Pairs(InASRow(addr, info)) == if addr == "" || info.number <= 0 then {} else {InASOp(addr, info.number, "")}
  {
    if addr != "" && info.number > 0 {
      assert InASRow(addr, info)[..0] == [];
    }
  }

  /** The pair joins an address with the AS that the database gives for it. */
  predicate IsLookedUpPair(asn: string -> Option<AsInfo>, k: (string, int)) {
    k.0 != "" && asn(k.0).Some? && asn(k.0).value.number == k.1 && k.1 > 0
  }

  lemma PairOfRow(asn: string -> Option<AsInfo>, addr: string)
    ensures forall k: (string, int) ::
      InASOp(k.0, k.1, "") in Pairs(InASRow(addr, LookupASN(asn, addr))) <==> IsLookedUpPair(asn, k) && k.0 == addr
  {
    PairsOfRow(addr, LookupASN(asn, addr));
  }

  // ---- a ping ----------------------------------------------------------------------------------------

  /** What a ping operation does to the addresses: the target is seen at `ts`, the source at `ts` or later. */
  ghost predicate PingSees(g: Graph, h: Graph, from: string, dst: string, ts: int) {
    forall a :: LastSeen(h.ips, a) ==
      if a == dst then Some(ts)
      else if a == from && a != "" then Raised(LastSeen(g.ips, a), ts) else LastSeen(g.ips, a)
  }

  /**
    * A ping record sets the PING edge of its probe and target to what it measured, marks the probe as seen,
    * and moves the probe to the address it came from. No other measurement changes.
    */
  lemma PingShows(asn: string -> Option<AsInfo>, g: Graph, r: Record)
    requires r.kind == "ping" && r.ping.Some? && r.dst != ""
    ensures var h, pl := Apply(asn, g, r), r.ping.value;
      && h.ping == g.ping[(r.prb, r.dst) := PingEdge(pl.avg, pl.min, pl.max, LossRatio(pl.sent, pl.rcvd),
                                                     pl.sent, pl.rcvd, r.ts, r.msm)]
      && h.nextHop == g.nextHop && h.transits == g.transits && h.targets == g.targets
      && h.probes == SeenAt(g.probes, r.prb, r.ts)
      && (r.fromIP != "" ==> IsRelocated(g, h, r.prb, r.fromIP, r.ts, LookupASN(asn, r.fromIP)))
      && (r.fromIP == "" ==> h.sources == g.sources && h.located == g.located)
      && PingSees(g, h, r.fromIP, r.dst, r.ts)
      && (forall k :: k in h.inAS <==>
            k in g.inAS || (IsLookedUpPair(asn, k) && (k.0 == r.dst || k.0 == r.fromIP)))
  {
    var pl := r.ping.value;
    var op := PingOp(r.prb, r.dst, r.fromIP, pl.avg, pl.min, pl.max, pl.sent, pl.rcvd, LossRatio(pl.sent, pl.rcvd),
                     r.ts, r.msm, r.af, LookupASN(asn, r.fromIP), LookupASN(asn, r.dst));
    assert RecordOps(asn, r).value == Batch([], [], [], [op]);
    PingOpShows(g, op);
    PingPairs(asn, g, op);
  }

  /** The graph after the PING query and the LOCATED_AT query of one ping. */
  function Pinged(g: Graph, op: PingOp): Graph {
    UpsertLocated(UpsertPings(g, [op]), PingLocated(op))
  }

  /** A batch of one ping is flushed in three queries. */
  lemma PingOnly(g: Graph, op: PingOp)
    ensures Flushed(g, Batch([], [], [], [op])) == UpsertInAS(Pinged(g, op), PingInAS(op))
  {
    NoRows(g);
    OneOfOne(PingLocated, op);
    OneOfOne(PingInAS, op);
  }

  lemma PingOpShows(g: Graph, op: PingOp)
    requires op.dst != ""
    ensures var h := Flushed(g, Batch([], [], [], [op]));
      && h.ping == g.ping[(op.prb, op.dst) := PingValue(op)]
      && h.nextHop == g.nextHop && h.transits == g.transits && h.targets == g.targets
      && h.probes == SeenAt(g.probes, op.prb, op.ts)
      && (op.from != "" ==> IsRelocated(g, h, op.prb, op.from, op.ts, op.fromAS))
      && (op.from == "" ==> h.sources == g.sources && h.located == g.located)
      && PingSees(g, h, op.from, op.dst, op.ts)
  {
    PingOnly(g, op);
    PingedShows(g, op);
    PingedSees(g, op);
    PairsShow(Pinged(g, op), PingInAS(op));
  }

  lemma PingedShows(g: Graph, op: PingOp)
    ensures var h := Pinged(g, op);
      && h.ping == g.ping[(op.prb, op.dst) := PingValue(op)]
      && h.nextHop == g.nextHop && h.transits == g.transits && h.targets == g.targets && h.inAS == g.inAS
      && h.probes == SeenAt(g.probes, op.prb, op.ts)
      && (op.from != "" ==> IsRelocated(g, h, op.prb, op.from, op.ts, op.fromAS))
      && (op.from == "" ==> h.sources == g.sources && h.located == g.located)
  {
    var g1 := UpsertPings(g, [op]);
    PingEdgeShows(g, op);
    SeenTwice(g.probes, op.prb, op.ts);
    if op.from != "" {
      PlaceShows(g1, PingLocated(op)[0]);
      RelocatedFrom(g, g1, Pinged(g, op), op.prb, op.from, op.ts, op.fromAS);
    } else {
      NoRows(g1);
    }
  }

  lemma PingedSees(g: Graph, op: PingOp)
    requires op.dst != ""
    ensures PingSees(g, Pinged(g, op), op.from, op.dst, op.ts)
  {
    var g1 := UpsertPings(g, [op]);
    FoldOne(TouchPinged, g.ips, op);
    if op.from != "" {
      FoldOne(RaiseSource, g1.ips, PingLocated(op)[0]);
      TouchedThenRaised(g.ips, op.dst, op.from, op.af, op.ts);
    } else {
      NoRows(g1);
      TouchSees(g.ips, op.dst, op.af, op.ts);
    }
  }

  lemma TouchSees(ips: map<string, Ip>, addr: string, af: int, ts: int)
    ensures forall a :: LastSeen(Touch(ips, addr, af, ts), a) == if a == addr then Some(ts) else LastSeen(ips, a)
  {
  }

  lemma RaiseSees(ips: map<string, Ip>, addr: string, af: int, ts: int)
    ensures var q := Raise(ips, addr, af, ts);
      forall a :: LastSeen(q, a) == if a == addr then Raised(LastSeen(ips, a), ts) else LastSeen(ips, a)
  {
  }

  lemma TouchedThenRaised(ips: map<string, Ip>, dst: string, from: string, af: int, ts: int)
    ensures var q := Raise(Touch(ips, dst, af, ts), from, af, ts);
      forall a :: LastSeen(q, a) ==
        if a == dst then Some(ts) else if a == from then Raised(LastSeen(ips, a), ts) else LastSeen(ips, a)
  {
    TouchSees(ips, dst, af, ts);
    RaiseSees(Touch(ips, dst, af, ts), from, af, ts);
  }

  lemma PingEdgeShows(g: Graph, op: PingOp)
    ensures var h := UpsertPings(g, [op]);
      && h == g.(ping := h.ping, probes := h.probes, ips := h.ips)
      && h.ping == g.ping[(op.prb, op.dst) := PingValue(op)]
      && h.probes == SeenAt(g.probes, op.prb, op.ts)
      && h.ips == Touch(g.ips, op.dst, op.af, op.ts)
  {
    FoldOne(SeePing, g.ping, op);
    FoldOne(TouchPinged, g.ips, op);
    OneOfOne(PingSighting, op);
    FoldOne(See, g.probes, Sighting(op.prb, op.ts));
  }

  lemma PingPairs(asn: string -> Option<AsInfo>, g: Graph, op: PingOp)
    requires op.fromAS == LookupASN(asn, op.from) && op.dstAS == LookupASN(asn, op.dst)
    ensures var h := Flushed(g, Batch([], [], [], [op]));
      forall k :: k in h.inAS <==> k in g.inAS || (IsLookedUpPair(asn, k) && (k.0 == op.dst || k.0 == op.from))
  {
    PingOnly(g, op);
    PairsShow(Pinged(g, op), PingInAS(op));
    PairsOfPing(op);
    PairOfRow(asn, op.dst);
    PairOfRow(asn, op.from);
  }

  lemma PairsOfPing(op: PingOp)
    ensures Pairs(PingInAS(op)) == Pairs(InASRow(op.dst, op.dstAS)) + Pairs(InASRow(op.from, op.fromAS))
  {
    PairsOfBoth(InASRow(op.dst, op.dstAS), InASRow(op.from, op.fromAS));
  }

  // ---- a traceroute --------------------------------------------------------------------------------------

  /** The steps of a trace from one address to another, different one. */
  function StepsBetween(hops: seq<Hop>, k: Edge): set<nat> {
    set i | 0 < i < |hops| && IsStep(hops, i, k)
  }

  predicate IsStep(hops: seq<Hop>, i: nat, k: Edge)
    requires 0 < i < |hops|
  {
    hops[i - 1].addr == k.0 && hops[i].addr == k.1 && k.0 != k.1
  }

  /** The steps of a trace from one AS to another, both known and different. */
  function CrossingsBetween(asn: string -> Option<AsInfo>, hops: seq<Hop>, k: (int, int)): set<nat> {
    set i | 0 < i < |hops| && IsCrossing(asn, hops, i, k)
  }

  predicate IsCrossing(asn: string -> Option<AsInfo>, hops: seq<Hop>, i: nat, k: (int, int))
    requires 0 < i < |hops|
  {
    && LookupASN(asn, hops[i - 1].addr).number == k.0 && LookupASN(asn, hops[i].addr).number == k.1
    && hops[i - 1].addr != hops[i].addr && k.0 > 0 && k.1 > 0 && k.0 != k.1
  }

  /** What the NEXT_HOP edge of a pair shows after a trace: all steps counted, and the last one's time. */
  ghost predicate HopShows(m: map<Edge, HopEdge>, q: map<Edge, HopEdge>, r: Record, hops: seq<Hop>, k: Edge) {
    var steps := StepsBetween(hops, k);
    && (k in q <==> k in m || steps != {})
    && (steps == {} && k in m ==> q[k] == m[k])
    && (k in q && steps != {} ==>
          && q[k].lastSeen == r.ts && q[k].proto == r.proto
          && q[k].seen == |steps| + if k in m then m[k].seen else 0)
    && forall i :: k in q && i in steps && (forall j :: j in steps ==> j <= i) ==> q[k].rtt == hops[i].rtt
  }

  lemma {:induction false} HopsShow(asn: string -> Option<AsInfo>, m: map<Edge, HopEdge>, r: Record, hops: seq<Hop>,
                                    k: Edge)
    requires forall i :: 0 <= i < |hops| ==> hops[i].addr != ""
    ensures HopShows(m, Fold(SeeHop, m, NextHopOps(r, Route(asn, hops))), r, hops, k)
    decreases |hops|
  {
    if |hops| < 2 {
      assert StepsBetween(hops, k) == {};
    } else {
      var front, a, b := hops[..|hops| - 1], hops[|hops| - 2], hops[|hops| - 1];
      HopsShow(asn, m, r, front, k);
      OpsNext(asn, r, hops);
      var before := NextHopOps(r, Route(asn, front));
      FoldAppend(SeeHop, m, before, StepOps(asn, r, a, b));
      StepShows(asn, m, Fold(SeeHop, m, before), r, front, hops, k);
    }
  }

  /** The operations of one step of a trace. */
  function StepOps(asn: string -> Option<AsInfo>, r: Record, a: Hop, b: Hop): seq<NextHopOp> {
    HopRow(r, RoutedHop(a.addr, a.rtt, LookupASN(asn, a.addr)), RoutedHop(b.addr, b.rtt, LookupASN(asn, b.addr)))
  }

  lemma OpsNext(asn: string -> Option<AsInfo>, r: Record, hops: seq<Hop>)
    requires |hops| >= 2
    ensures NextHopOps(r, Route(asn, hops)) ==
      NextHopOps(r, Route(asn, hops[..|hops| - 1])) + StepOps(asn, r, hops[|hops| - 2], hops[|hops| - 1])
  {
    RouteFront(asn, hops);
  }

  lemma LinksNext(asn: string -> Option<AsInfo>, r: Record, hops: seq<Hop>)
    requires |hops| >= 2
    ensures AsLinkOps(r, Route(asn, hops)) ==
      AsLinkOps(r, Route(asn, hops[..|hops| - 1])) + CrossingOps(asn, r, hops[|hops| - 2], hops[|hops| - 1])
  {
    RouteFront(asn, hops);
  }

  lemma StepShows(asn: string -> Option<AsInfo>, m: map<Edge, HopEdge>, q: map<Edge, HopEdge>, r: Record,
                  front: seq<Hop>, hops: seq<Hop>, k: Edge)
    requires |hops| >= 2 && front == hops[..|hops| - 1] && HopShows(m, q, r, front, k)
    requires hops[|hops| - 2].addr != "" && hops[|hops| - 1].addr != ""
    ensures HopShows(m, Fold(SeeHop, q, StepOps(asn, r, hops[|hops| - 2], hops[|hops| - 1])), r, hops, k)
  {
    var a, b := hops[|hops| - 2], hops[|hops| - 1];
    StepsGrow(front, hops, k);
    if a.addr != b.addr {
      FoldOne(SeeHop, q, StepOps(asn, r, a, b)[0]);
    }
    if IsStep(hops, |hops| - 1, k) {
      StepAdded(m, q, r, front, hops, k);
    } else {
      StepElsewhere(m, q, Fold(SeeHop, q, StepOps(asn, r, a, b)), r, front, hops, k);
    }
  }

  lemma StepAdded(m: map<Edge, HopEdge>, q: map<Edge, HopEdge>, r: Record, front: seq<Hop>, hops: seq<Hop>, k: Edge)
    requires front != [] && |hops| == |front| + 1 && HopShows(m, q, r, front, k)
    requires StepsBetween(hops, k) == StepsBetween(front, k) + {|front|}
    ensures var edge := HopEdge(hops[|front|].rtt, r.ts, r.proto, 1 + if k in q then q[k].seen else 0);
      HopShows(m, q[k := edge], r, hops, k)
  {
    var n, steps := |front|, StepsBetween(front, k);
    assert n !in steps && |steps + {n}| == |steps| + 1;
  }

  lemma StepElsewhere(m: map<Edge, HopEdge>, q: map<Edge, HopEdge>, q': map<Edge, HopEdge>, r: Record,
                      front: seq<Hop>, hops: seq<Hop>, k: Edge)
    requires front <= hops && HopShows(m, q, r, front, k) && StepsBetween(hops, k) == StepsBetween(front, k)
    requires (k in q' <==> k in q) && (k in q ==> q'[k] == q[k])
    ensures HopShows(m, q', r, hops, k)
  {
  }

  lemma RouteFront(asn: string -> Option<AsInfo>, hops: seq<Hop>)
    requires hops != []
    ensures Route(asn, hops)[..|hops| - 1] == Route(asn, hops[..|hops| - 1])
  {
  }

  lemma StepsGrow(front: seq<Hop>, hops: seq<Hop>, k: Edge)
    requires |hops| >= 2 && front == hops[..|hops| - 1]
    ensures forall i :: i in StepsBetween(front, k) ==> i < |front|
    ensures StepsBetween(hops, k) ==
      StepsBetween(front, k) + if IsStep(hops, |hops| - 1, k) then {|hops| - 1} else {}
  {
    assert forall i :: 0 < i < |front| ==> (IsStep(hops, i, k) <==> IsStep(front, i, k));
  }

  /** What the TRANSITS edge of two ASes shows after a trace: all crossings counted. */
  ghost predicate TransitShows(asn: string -> Option<AsInfo>, m: map<(int, int), Transit>, q: map<(int, int), Transit>,
                               r: Record, hops: seq<Hop>, k: (int, int)) {
    var crossings := CrossingsBetween(asn, hops, k);
    && (k in q <==> k in m || crossings != {})
    && (crossings == {} && k in m ==> q[k] == m[k])
    && (k in q && crossings != {} ==>
          q[k] == Transit(r.ts, |crossings| + if k in m then m[k].seen else 0))
  }

  function CrossingOps(asn: string -> Option<AsInfo>, r: Record, a: Hop, b: Hop): seq<AsLinkOp> {
    AsRow(r, RoutedHop(a.addr, a.rtt, LookupASN(asn, a.addr)), RoutedHop(b.addr, b.rtt, LookupASN(asn, b.addr)))
  }

  lemma {:induction false} TransitsShow(asn: string -> Option<AsInfo>, m: map<(int, int), Transit>, r: Record,
                                        hops: seq<Hop>, k: (int, int))
    requires forall i :: 0 <= i < |hops| ==> hops[i].addr != ""
    ensures TransitShows(asn, m, Fold(SeeTransit, m, AsLinkOps(r, Route(asn, hops))), r, hops, k)
    decreases |hops|
  {
    if |hops| < 2 {
      assert CrossingsBetween(asn, hops, k) == {};
    } else {
      var front, a, b := hops[..|hops| - 1], hops[|hops| - 2], hops[|hops| - 1];
      TransitsShow(asn, m, r, front, k);
      LinksNext(asn, r, hops);
      var before := AsLinkOps(r, Route(asn, front));
      FoldAppend(SeeTransit, m, before, CrossingOps(asn, r, a, b));
      CrossingShows(asn, m, Fold(SeeTransit, m, before), r, front, hops, k);
    }
  }

  lemma CrossingShows(asn: string -> Option<AsInfo>, m: map<(int, int), Transit>, q: map<(int, int), Transit>,
                      r: Record, front: seq<Hop>, hops: seq<Hop>, k: (int, int))
    requires |hops| >= 2 && front == hops[..|hops| - 1] && TransitShows(asn, m, q, r, front, k)
    requires hops[|hops| - 2].addr != "" && hops[|hops| - 1].addr != ""
    ensures var ops := CrossingOps(asn, r, hops[|hops| - 2], hops[|hops| - 1]);
      TransitShows(asn, m, Fold(SeeTransit, q, ops), r, hops, k)
  {
    var n, ops := |hops| - 1, CrossingOps(asn, r, hops[|hops| - 2], hops[|hops| - 1]);
    CrossingsGrow(asn, front, hops, k);
    OneCrossing(asn, q, r, hops, k);
    if IsCrossing(asn, hops, n, k) {
      CrossingAdded(asn, m, q, r, front, hops, k);
    } else {
      CrossingElsewhere(asn, m, q, Fold(SeeTransit, q, ops), r, front, hops, k);
    }
  }

  lemma OneCrossing(asn: string -> Option<AsInfo>, q: map<(int, int), Transit>, r: Record, hops: seq<Hop>,
                    k: (int, int))
    requires |hops| >= 2 && hops[|hops| - 2].addr != "" && hops[|hops| - 1].addr != ""
    ensures var q' := Fold(SeeTransit, q, CrossingOps(asn, r, hops[|hops| - 2], hops[|hops| - 1]));
      if IsCrossing(asn, hops, |hops| - 1, k) then q' == q[k := Transit(r.ts, 1 + if k in q then q[k].seen else 0)]
      else (k in q' <==> k in q) && (k in q ==> q'[k] == q[k])
  {
    var ops := CrossingOps(asn, r, hops[|hops| - 2], hops[|hops| - 1]);
    if ops != [] {
      FoldOne(SeeTransit, q, ops[0]);
    }
  }

  lemma CrossingAdded(asn: string -> Option<AsInfo>, m: map<(int, int), Transit>, q: map<(int, int), Transit>,
                      r: Record, front: seq<Hop>, hops: seq<Hop>, k: (int, int))
    requires front != [] && TransitShows(asn, m, q, r, front, k)
    requires CrossingsBetween(asn, hops, k) == CrossingsBetween(asn, front, k) + {|front|}
    ensures TransitShows(asn, m, q[k := Transit(r.ts, 1 + if k in q then q[k].seen else 0)], r, hops, k)
  {
    var n, crossings := |front|, CrossingsBetween(asn, front, k);
    assert n !in crossings && |crossings + {n}| == |crossings| + 1;
  }

  lemma CrossingElsewhere(asn: string -> Option<AsInfo>, m: map<(int, int), Transit>, q: map<(int, int), Transit>,
                          q': map<(int, int), Transit>, r: Record, front: seq<Hop>, hops: seq<Hop>, k: (int, int))
    requires TransitShows(asn, m, q, r, front, k)
    requires CrossingsBetween(asn, hops, k) == CrossingsBetween(asn, front, k)
    requires (k in q' <==> k in q) && (k in q ==> q'[k] == q[k])
    ensures TransitShows(asn, m, q', r, hops, k)
  {
  }

  lemma CrossingsGrow(asn: string -> Option<AsInfo>, front: seq<Hop>, hops: seq<Hop>, k: (int, int))
    requires |hops| >= 2 && front == hops[..|hops| - 1]
    ensures forall i :: i in CrossingsBetween(asn, front, k) ==> i < |front|
    ensures CrossingsBetween(asn, hops, k) ==
      CrossingsBetween(asn, front, k) + if IsCrossing(asn, hops, |hops| - 1, k) then {|hops| - 1} else {}
  {
    assert forall i :: 0 < i < |front| ==> (IsCrossing(asn, hops, i, k) <==> IsCrossing(asn, front, i, k));
  }

  // ---- the addresses of a traceroute ------------------------------------------------------------------------

  /** The address stands at one end of a step between two different addresses. */
  ghost predicate OnStep(hops: seq<Hop>, a: string) {
    exists k, i :: i in StepsBetween(hops, k) && (a == k.0 || a == k.1)
  }

  function Froms(ops: seq<NextHopOp>): set<string> {
    set op | op in ops :: op.from
  }

  function Tos(ops: seq<NextHopOp>): set<string> {
    set op | op in ops :: op.to
  }

  function Ends(ops: seq<NextHopOp>): set<string> {
    Froms(ops) + Tos(ops)
  }

  lemma EndsNext(ops: seq<NextHopOp>, more: seq<NextHopOp>)
    ensures Ends(ops + more) == Ends(ops) + Ends(more)
  {
    assert forall op :: op in ops + more <==> op in ops || op in more;
  }

  lemma {:induction false} EndsAreOnSteps(asn: string -> Option<AsInfo>, r: Record, hops: seq<Hop>, a: string)
    requires forall i :: 0 <= i < |hops| ==> hops[i].addr != ""
    ensures a in Ends(NextHopOps(r, Route(asn, hops))) <==> OnStep(hops, a)
    decreases |hops|
  {
    if |hops| < 2 {
      assert forall k :: StepsBetween(hops, k) == {};
    } else {
      var front, x, y := hops[..|hops| - 1], hops[|hops| - 2], hops[|hops| - 1];
      EndsAreOnSteps(asn, r, front, a);
      OpsNext(asn, r, hops);
      EndsNext(NextHopOps(r, Route(asn, front)), StepOps(asn, r, x, y));
      OnStepNext(front, hops, a);
    }
  }

  lemma OnStepNext(front: seq<Hop>, hops: seq<Hop>, a: string)
    requires |hops| >= 2 && front == hops[..|hops| - 1]
    ensures var x, y := hops[|hops| - 2].addr, hops[|hops| - 1].addr;
      OnStep(hops, a) <==> OnStep(front, a) || (x != y && (a == x || a == y))
  {
    var x, y := hops[|hops| - 2].addr, hops[|hops| - 1].addr;
    forall k
      ensures StepsBetween(hops, k) ==
        StepsBetween(front, k) + if IsStep(hops, |hops| - 1, k) then {|hops| - 1} else {}
    {
      StepsGrow(front, hops, k);
    }
    if x != y {
      assert IsStep(hops, |hops| - 1, (x, y));
      assert |hops| - 1 in StepsBetween(hops, (x, y));
    }
    if k, i :| i in StepsBetween(front, k) && (a == k.0 || a == k.1) {
      assert i in StepsBetween(hops, k);
    }
  }

  lemma {:induction false} FromSees(ips: map<string, Ip>, ops: seq<NextHopOp>, ts: int)
    requires forall op :: op in ops ==> op.ts == ts
    ensures var q := Fold(TouchFrom, ips, ops);
      forall a :: LastSeen(q, a) == if a in Froms(ops) then Some(ts) else LastSeen(ips, a)
    decreases |ops|
  {
    if ops != [] {
      var init, last := ops[..|ops| - 1], ops[|ops| - 1];
      FromSees(ips, init, ts);
      assert forall op :: op in ops <==> op in init || op == last;
      assert Froms(ops) == Froms(init) + {last.from};
      TouchSees(Fold(TouchFrom, ips, init), last.from, last.af, ts);
    }
  }

  lemma {:induction false} ToSees(ips: map<string, Ip>, ops: seq<NextHopOp>, ts: int)
    requires forall op :: op in ops ==> op.ts == ts
    ensures var q := Fold(TouchTo, ips, ops);
      forall a :: LastSeen(q, a) == if a in Tos(ops) then Some(ts) else LastSeen(ips, a)
    decreases |ops|
  {
    if ops != [] {
      var init, last := ops[..|ops| - 1], ops[|ops| - 1];
      ToSees(ips, init, ts);
      assert forall op :: op in ops <==> op in init || op == last;
      assert Tos(ops) == Tos(init) + {last.to};
      TouchSees(Fold(TouchTo, ips, init), last.to, last.af, ts);
    }
  }

  lemma HopsSee(g: Graph, ops: seq<NextHopOp>, ts: int)
    requires forall op :: op in ops ==> op.ts == ts
    ensures var q := UpsertNextHops(g, ops).ips;
      forall a :: LastSeen(q, a) == if a in Ends(ops) then Some(ts) else LastSeen(g.ips, a)
  {
    FromSees(g.ips, ops, ts);
    ToSees(Fold(TouchFrom, g.ips, ops), ops, ts);
  }

  lemma {:induction false} StepsAtTime(asn: string -> Option<AsInfo>, r: Record, hops: seq<RoutedHop>)
    ensures forall op :: op in NextHopOps(r, hops) ==> op.ts == r.ts
    decreases |hops|
  {
    if |hops| >= 2 {
      StepsAtTime(asn, r, hops[..|hops| - 1]);
    }
  }

  lemma {:induction false} HopPairs(asn: string -> Option<AsInfo>, ops: seq<NextHopOp>)
    requires forall op :: op in ops ==> op.a == LookupASN(asn, op.from) && op.b == LookupASN(asn, op.to)
    ensures forall k: (string, int) ::
      InASOp(k.0, k.1, "") in Pairs(FlatMap(HopInAS, ops)) <==> IsLookedUpPair(asn, k) && k.0 in Ends(ops)
    decreases |ops|
  {
    if ops != [] {
      var init, last := ops[..|ops| - 1], ops[|ops| - 1];
      HopPairs(asn, init);
      PairsOfBoth(FlatMap(HopInAS, init), HopInAS(last));
      OneHopPairs(asn, last);
      SplitLast(ops);
      EndsNext(init, [last]);
    }
  }

  lemma OneHopPairs(asn: string -> Option<AsInfo>, op: NextHopOp)
    requires op.a == LookupASN(asn, op.from) && op.b == LookupASN(asn, op.to)
    ensures forall k: (string, int) ::
      InASOp(k.0, k.1, "") in Pairs(HopInAS(op)) <==> IsLookedUpPair(asn, k) && k.0 in Ends([op])
  {
    PairsOfBoth(InASRow(op.from, op.a), InASRow(op.to, op.b));
    PairOfRow(asn, op.from);
    PairOfRow(asn, op.to);
    EndsOfOne(op);
  }

  lemma EndsOfOne(op: NextHopOp)
    ensures Ends([op]) == {op.from, op.to}
  {
  }

  // ---- a traceroute, put together ---------------------------------------------------------------------------

  /** The graph after the queries of the trace itself. */
  function Traced(g: Graph, hops: seq<NextHopOp>, links: seq<AsLinkOp>): Graph {
    UpsertTransits(UpsertInAS(UpsertNextHops(g, hops), FlatMap(HopInAS, hops)), links)
  }

  lemma TracedShows(asn: string -> Option<AsInfo>, g: Graph, r: Record, hops: seq<Hop>)
    requires forall i :: 0 <= i < |hops| ==> hops[i].addr != ""
    ensures var route := Route(asn, hops);
      var h := Traced(g, NextHopOps(r, route), AsLinkOps(r, route));
      && h.probes == g.probes && h.targets == g.targets && h.ping == g.ping
      && h.sources == g.sources && h.located == g.located
      && (forall a :: LastSeen(h.ips, a) == if OnStep(hops, a) then Some(r.ts) else LastSeen(g.ips, a))
      && (forall k :: k in h.inAS <==> k in g.inAS || (IsLookedUpPair(asn, k) && OnStep(hops, k.0)))
  {
    var route := Route(asn, hops);
    var ops := NextHopOps(r, route);
    StepsAtTime(asn, r, route);
    HopsAreLookedUp(asn, r, route);
    HopsSee(g, ops, r.ts);
    HopPairs(asn, ops);
    PairsShow(UpsertNextHops(g, ops), FlatMap(HopInAS, ops));
    forall a
      ensures a in Ends(ops) <==> OnStep(hops, a)
    {
      EndsAreOnSteps(asn, r, hops, a);
    }
  }

  /** The graph after the queries about the probe of a trace. */
  function Sourced(g: Graph, op: ProbeOp): Graph {
    UpsertInAS(UpsertTargets(UpsertLocated(g, ProbeLocated(op)), ProbeTarget(op)), ProbeInAS(op))
  }

  lemma TargetShows(g: Graph, op: TargetOp)
    ensures var h := UpsertTargets(g, [op]);
      && h == g.(targets := h.targets, probes := h.probes, ips := h.ips)
      && h.targets == g.targets[(op.prb, op.dst) := Target(op.msm, op.ts)]
      && h.probes == SeenAt(g.probes, op.prb, op.ts)
      && h.ips == Touch(g.ips, op.dst, op.af, op.ts)
  {
    FoldOne(SeeTarget, g.targets, op);
    FoldOne(TouchTarget, g.ips, op);
    OneOfOne(TargetSighting, op);
    FoldOne(See, g.probes, Sighting(op.prb, op.ts));
  }

  /** What a trace shows besides its hops. */
  ghost predicate SourceShows(g: Graph, h: Graph, op: ProbeOp) {
    && h.nextHop == g.nextHop && h.transits == g.transits && h.ping == g.ping
    && h.targets == (if op.dst != "" then g.targets[(op.prb, op.dst) := Target(op.msm, op.ts)] else g.targets)
    && h.probes == (if op.fromIP == "" && op.dst == "" then g.probes
                    else SeenAt(g.probes, op.prb, op.ts))
    && (op.fromIP != "" ==> IsRelocated(g, h, op.prb, op.fromIP, op.ts, op.fromAS))
    && (op.fromIP == "" ==> h.sources == g.sources && h.located == g.located)
    && forall a :: LastSeen(h.ips, a) ==
         if a == op.dst && a != "" then Some(op.ts)
         else if a == op.fromIP && a != "" then Raised(LastSeen(g.ips, a), op.ts) else LastSeen(g.ips, a)
  }

  /** The location of the probe alone. */
  lemma PlacedShows(g: Graph, op: ProbeOp)
    ensures SourceShows(g, UpsertLocated(g, ProbeLocated(op)), op.(dst := ""))
    ensures UpsertLocated(g, ProbeLocated(op)).inAS == g.inAS
  {
    NoRows(g);
    if op.fromIP != "" {
      PlaceShows(g, ProbeLocated(op)[0]);
      RaiseSees(g.ips, op.fromIP, op.af, op.ts);
    }
  }

  /** Then its target. */
  lemma AimedShows(g: Graph, g1: Graph, op: ProbeOp)
    requires SourceShows(g, g1, op.(dst := ""))
    ensures SourceShows(g, UpsertTargets(g1, ProbeTarget(op)), op)
    ensures UpsertTargets(g1, ProbeTarget(op)).inAS == g1.inAS
  {
    NoRows(g1);
    if op.dst != "" {
      var h := UpsertTargets(g1, ProbeTarget(op));
      TargetShows(g1, ProbeTarget(op)[0]);
      SeenTwice(g.probes, op.prb, op.ts);
      AimedSees(g, g1, op);
      if op.fromIP != "" {
        StaysRelocated(g, g1, h, op.prb, op.fromIP, op.ts, op.fromAS);
      }
    }
  }

  lemma AimedSees(g: Graph, g1: Graph, op: ProbeOp)
    requires op.dst != ""
    requires forall a ::
      LastSeen(g1.ips, a) ==
        if a == op.fromIP && a != "" then Raised(LastSeen(g.ips, a), op.ts) else LastSeen(g.ips, a)
    ensures var q := Touch(g1.ips, op.dst, op.af, op.ts);
      forall a :: LastSeen(q, a) ==
        if a == op.dst && a != "" then Some(op.ts)
        else if a == op.fromIP && a != "" then Raised(LastSeen(g.ips, a), op.ts) else LastSeen(g.ips, a)
  {
    TouchSees(g1.ips, op.dst, op.af, op.ts);
  }

  lemma SourcedShows(g: Graph, op: ProbeOp)
    ensures SourceShows(g, Sourced(g, op), op)
  {
    var g1 := UpsertLocated(g, ProbeLocated(op));
    PlacedShows(g, op);
    AimedShows(g, g1, op);
    PairsShow(UpsertTargets(g1, ProbeTarget(op)), ProbeInAS(op));
  }

  lemma SourcedPairs(asn: string -> Option<AsInfo>, g: Graph, op: ProbeOp)
    requires op.fromAS == LookupASN(asn, op.fromIP) && op.dstAS == LookupASN(asn, op.dst)
    ensures var h := Sourced(g, op);
      forall k :: k in h.inAS <==> k in g.inAS || (IsLookedUpPair(asn, k) && (k.0 == op.dst || k.0 == op.fromIP))
  {
    var g2 := UpsertTargets(UpsertLocated(g, ProbeLocated(op)), ProbeTarget(op));
    PairsShow(g2, ProbeInAS(op));
    PairsOfBoth(InASRow(op.fromIP, op.fromAS), InASRow(op.dst, op.dstAS));
    PairOfRow(asn, op.dst);
    PairOfRow(asn, op.fromIP);
  }

  /** A batch of one trace is flushed as the trace and then its source. */
  lemma TraceOnly(g: Graph, hops: seq<NextHopOp>, links: seq<AsLinkOp>, probes: seq<ProbeOp>, op: ProbeOp)
    requires probes == [op] || (probes == [] && op.fromIP == "" && op.dst == "")
    ensures Flushed(g, Batch(hops, links, probes, [])) == Sourced(Traced(g, hops, links), op)
  {
    var g2 := Traced(g, hops, links);
    NoRows(g2);
    if probes == [op] {
      OneOfOne(ProbeLocated, op);
      OneOfOne(ProbeTarget, op);
      OneOfOne(ProbeInAS, op);
      NoRows(Sourced(g2, op));
    }
  }

  /** What a traceroute shows besides its hops: its target, where its probe is, and which addresses were seen. */
  ghost predicate TraceSettles(g: Graph, h: Graph, r: Record, info: AsInfo, hops: seq<Hop>) {
    && h.ping == g.ping
    && h.targets == (if r.dst != "" then g.targets[(r.prb, r.dst) := Target(r.msm, r.ts)] else g.targets)
    && h.probes == (if r.fromIP == "" && r.dst == "" then g.probes
                    else SeenAt(g.probes, r.prb, r.ts))
    && (r.fromIP != "" ==> IsRelocated(g, h, r.prb, r.fromIP, r.ts, info))
    && (r.fromIP == "" ==> h.sources == g.sources && h.located == g.located)
    && forall a :: LastSeen(h.ips, a) ==
         if OnStep(hops, a) || (a == r.dst && a != "") then Some(r.ts)
         else if a == r.fromIP && a != "" then Raised(LastSeen(g.ips, a), r.ts) else LastSeen(g.ips, a)
  }

  /**
    * A traceroute record shows in the NEXT_HOP edges of all its steps and in the TRANSITS edges of all its
    * crossings, sets its target, marks its addresses and its probe as seen, moves the probe to the address it
    * came from, and joins every address with its AS. No other relationship changes.
    */
  lemma TraceShows(asn: string -> Option<AsInfo>, g: Graph, r: Record)
    requires r.kind == "traceroute" && r.trace.Some?
    ensures var h, hops := Apply(asn, g, r), ResponsiveHops(r.trace.value);
      && (forall k :: HopShows(g.nextHop, h.nextHop, r, hops, k))
      && (forall k :: TransitShows(asn, g.transits, h.transits, r, hops, k))
      && TraceSettles(g, h, r, LookupASN(asn, r.fromIP), hops)
      && forall k :: k in h.inAS <==>
           k in g.inAS || (IsLookedUpPair(asn, k) && (OnStep(hops, k.0) || k.0 == r.dst || k.0 == r.fromIP))
  {
    var hops := ResponsiveHops(r.trace.value);
    ResponsiveHopsHaveAddrs(r.trace.value);
    TraceMeasures(asn, g, r, hops);
    TraceIsSettled(asn, g, r, hops);
    TracePairs(asn, g, r, hops);
  }

  function TraceProbe(asn: string -> Option<AsInfo>, r: Record): ProbeOp {
    ProbeOp(r.prb, r.fromIP, r.dst, r.msm, r.ts, r.af, LookupASN(asn, r.fromIP), LookupASN(asn, r.dst))
  }

  lemma TraceApplied(asn: string -> Option<AsInfo>, g: Graph, r: Record, hops: seq<Hop>)
    requires r.kind == "traceroute" && r.trace.Some? && hops == ResponsiveHops(r.trace.value)
    ensures var route := Route(asn, hops);
      Apply(asn, g, r) == Sourced(Traced(g, NextHopOps(r, route), AsLinkOps(r, route)), TraceProbe(asn, r))
  {
    var route := Route(asn, hops);
    TraceOnly(g, NextHopOps(r, route), AsLinkOps(r, route), ProbeOps(asn, r), TraceProbe(asn, r));
  }

  lemma TraceMeasures(asn: string -> Option<AsInfo>, g: Graph, r: Record, hops: seq<Hop>)
    requires r.kind == "traceroute" && r.trace.Some? && hops == ResponsiveHops(r.trace.value)
    requires forall i :: 0 <= i < |hops| ==> hops[i].addr != ""
    ensures var h := Apply(asn, g, r);
      && (forall k :: HopShows(g.nextHop, h.nextHop, r, hops, k))
      && (forall k :: TransitShows(asn, g.transits, h.transits, r, hops, k))
  {
    FlushActsOnCore(g, RecordOps(asn, r).value);
    forall k
      ensures HopShows(g.nextHop, Apply(asn, g, r).nextHop, r, hops, k)
    {
      HopsShow(asn, g.nextHop, r, hops, k);
    }
    forall k
      ensures TransitShows(asn, g.transits, Apply(asn, g, r).transits, r, hops, k)
    {
      TransitsShow(asn, g.transits, r, hops, k);
    }
  }

  lemma TraceIsSettled(asn: string -> Option<AsInfo>, g: Graph, r: Record, hops: seq<Hop>)
    requires r.kind == "traceroute" && r.trace.Some? && hops == ResponsiveHops(r.trace.value)
    requires forall i :: 0 <= i < |hops| ==> hops[i].addr != ""
    ensures TraceSettles(g, Apply(asn, g, r), r, LookupASN(asn, r.fromIP), hops)
  {
    var route := Route(asn, hops);
    var t := Traced(g, NextHopOps(r, route), AsLinkOps(r, route));
    TraceApplied(asn, g, r, hops);
    TracedShows(asn, g, r, hops);
    SourcedShows(t, TraceProbe(asn, r));
    SettledOn(g, t, Apply(asn, g, r), r, TraceProbe(asn, r), hops);
  }

  lemma SettledOn(g: Graph, t: Graph, h: Graph, r: Record, op: ProbeOp, hops: seq<Hop>)
    requires t.probes == g.probes && t.targets == g.targets && t.ping == g.ping
    requires t.sources == g.sources && t.located == g.located
    requires forall a :: LastSeen(t.ips, a) == if OnStep(hops, a) then Some(r.ts) else LastSeen(g.ips, a)
    requires op.prb == r.prb && op.fromIP == r.fromIP && op.dst == r.dst && op.msm == r.msm && op.ts == r.ts
    requires SourceShows(t, h, op)
    ensures TraceSettles(g, h, r, op.fromAS, hops)
  {
    if op.fromIP != "" {
      RelocatedFrom(g, t, h, r.prb, r.fromIP, r.ts, op.fromAS);
    }
  }

  lemma TracePairs(asn: string -> Option<AsInfo>, g: Graph, r: Record, hops: seq<Hop>)
    requires r.kind == "traceroute" && r.trace.Some? && hops == ResponsiveHops(r.trace.value)
    requires forall i :: 0 <= i < |hops| ==> hops[i].addr != ""
    ensures var h := Apply(asn, g, r);
      forall k :: k in h.inAS <==>
        k in g.inAS || (IsLookedUpPair(asn, k) && (OnStep(hops, k.0) || k.0 == r.dst || k.0 == r.fromIP))
  {
    var route := Route(asn, hops);
    TraceApplied(asn, g, r, hops);
    TracedShows(asn, g, r, hops);
    SourcedPairs(asn, Traced(g, NextHopOps(r, route), AsLinkOps(r, route)), TraceProbe(asn, r));
  }
}
