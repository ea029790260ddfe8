/**
 The stored topology graph and the upsert queries that write it.

 Every node label and relationship type is a table keyed as its MERGE clause keys it. A query
 applies each of its clauses to all rows, in list order, before the next clause.
 */
module Topology {
  import opened HopGraph
  import opened Sequences
  import opened Wrappers

  // ---- the stored graph ----------------------------------------------------------

  datatype Ip = Ip(af: Option<int>, lastSeen: Option<int>, asn: Option<int>)

  datatype Source = Source(ip: string, asn: int, org: string)

  datatype HopEdge = HopEdge(rtt: real, lastSeen: int, proto: string, seen: nat)

  datatype Transit = Transit(lastSeen: int, seen: nat)

  datatype Target = Target(msm: int, lastSeen: int)

  datatype PingEdge = PingEdge(avg: real, min: real, max: real, loss: real, sent: nat, rcvd: nat,
                               lastSeen: int, msm: int)

  datatype Graph = Graph(
    ips: map<string, Ip>,
    probes: map<int, Option<int>>,
    sources: map<int, Source>,
    ases: map<int, string>,
    nextHop: map<Edge, HopEdge>,
    transits: map<(int, int), Transit>,
    targets: map<(int, string), Target>,
    ping: map<(int, string), PingEdge>,
    located: map<(int, string), Option<int>>,
    inAS: set<(string, int)>)

  const EMPTY_GRAPH := Graph(map[], map[], map[], map[], map[], map[], map[], map[], map[], {})

  // ---- pending operations -----------------------------------------------------------

  datatype AsInfo = AsInfo(number: int, org: string)

  datatype NextHopOp = NextHopOp(from: string, to: string, rtt: real, ts: int, proto: string, af: int,
                                 a: AsInfo, b: AsInfo)

  datatype AsLinkOp = AsLinkOp(a: AsInfo, b: AsInfo, ts: int)

  datatype ProbeOp = ProbeOp(prb: int, fromIP: string, dst: string, msm: int, ts: int, af: int,
                             fromAS: AsInfo, dstAS: AsInfo)

  datatype PingOp = PingOp(prb: int, dst: string, from: string, avg: real, min: real, max: real, sent: nat, rcvd: nat,
                           loss: real, ts: int, msm: int, af: int, fromAS: AsInfo, dstAS: AsInfo)

  datatype LocatedOp = LocatedOp(prb: int, fromIP: string, ts: int, af: int, fromAS: AsInfo)

  datatype TargetOp = TargetOp(prb: int, dst: string, msm: int, ts: int, af: int)

  datatype InASOp = InASOp(addr: string, asn: int, org: string)

  datatype Batch = Batch(nextHops: seq<NextHopOp>, asLinks: seq<AsLinkOp>, probes: seq<ProbeOp>, pings: seq<PingOp>) {
    function Len(): nat {
      |nextHops| + |asLinks| + |probes| + |pings|
    }
    function Plus(b: Batch): Batch {
      Batch(nextHops + b.nextHops, asLinks + b.asLinks, probes + b.probes, pings + b.pings)
    }
  }

  const EMPTY_BATCH := Batch([], [], [], [])

  // ---- rows derived from the operations ---------------------------------------------------

  function InASRow(addr: string, info: AsInfo): seq<InASOp> {
    if addr == "" || info.number <= 0 then [] else [InASOp(addr, info.number, info.org)]
  }

  function HopInAS(op: NextHopOp): seq<InASOp> {
    InASRow(op.from, op.a) + InASRow(op.to, op.b)
  }

  function ProbeLocated(op: ProbeOp): seq<LocatedOp> {
    if op.fromIP != "" then [LocatedOp(op.prb, op.fromIP, op.ts, op.af, op.fromAS)] else []
  }

  function ProbeTarget(op: ProbeOp): seq<TargetOp> {
    if op.dst != "" then [TargetOp(op.prb, op.dst, op.msm, op.ts, op.af)] else []
  }

  function ProbeInAS(op: ProbeOp): seq<InASOp> {
    (if op.fromIP != "" then InASRow(op.fromIP, op.fromAS) else []) +
    (if op.dst != "" then InASRow(op.dst, op.dstAS) else [])
  }

  function PingLocated(op: PingOp): seq<LocatedOp> {
    if op.from == "" then [] else [LocatedOp(op.prb, op.from, op.ts, op.af, op.fromAS)]
  }

  function PingInAS(op: PingOp): seq<InASOp> {
    InASRow(op.dst, op.dstAS) + (if op.from == "" then [] else InASRow(op.from, op.fromAS))
  }

  // ---- clauses: what one row does to one table ---------------------------------------------

  /** MERGE an IP and overwrite its last_seen. */
  function Touch(ips: map<string, Ip>, addr: string, af: int, ts: int): map<string, Ip> {
    ips[addr := if addr in ips then ips[addr].(lastSeen := Some(ts)) else Ip(Some(af), Some(ts), None)]
  }

  /** MERGE an IP and raise its last_seen. */
  function Raise(ips: map<string, Ip>, addr: string, af: int, ts: int): map<string, Ip> {
    if addr in ips && ips[addr].lastSeen.Some? && ips[addr].lastSeen.value > ts then ips else Touch(ips, addr, af, ts)
  }

  function TouchFrom(ips: map<string, Ip>, op: NextHopOp): map<string, Ip> { Touch(ips, op.from, op.af, op.ts) }

  function TouchTo(ips: map<string, Ip>, op: NextHopOp): map<string, Ip> { Touch(ips, op.to, op.af, op.ts) }

  function TouchTarget(ips: map<string, Ip>, op: TargetOp): map<string, Ip> { Touch(ips, op.dst, op.af, op.ts) }

  function TouchPinged(ips: map<string, Ip>, op: PingOp): map<string, Ip> { Touch(ips, op.dst, op.af, op.ts) }

  function RaiseSource(ips: map<string, Ip>, op: LocatedOp): map<string, Ip> { Raise(ips, op.fromIP, op.af, op.ts) }

  function SetAsn(ips: map<string, Ip>, op: InASOp): map<string, Ip> {
    ips[op.addr := if op.addr in ips then ips[op.addr].(asn := Some(op.asn)) else Ip(None, None, Some(op.asn))]
  }

  /** MERGE an AS; a blank organization never replaces a known one. */
  function NameAS(ases: map<int, string>, info: AsInfo): map<int, string> {
    ases[info.number := if info.number in ases && info.org == "" then ases[info.number] else info.org]
  }

  function NameInAS(ases: map<int, string>, op: InASOp): map<int, string> { NameAS(ases, AsInfo(op.asn, op.org)) }

  function NameA(ases: map<int, string>, op: AsLinkOp): map<int, string> { NameAS(ases, op.a) }

  function NameB(ases: map<int, string>, op: AsLinkOp): map<int, string> { NameAS(ases, op.b) }

  function LinkInAS(inAS: set<(string, int)>, op: InASOp): set<(string, int)> { inAS + {(op.addr, op.asn)} }

  function HopKey(op: NextHopOp): Edge { (op.from, op.to) }

  function SeeHop(m: map<Edge, HopEdge>, op: NextHopOp): map<Edge, HopEdge> {
    m[HopKey(op) := HopEdge(op.rtt, op.ts, op.proto, 1 + if HopKey(op) in m then m[HopKey(op)].seen else 0)]
  }

  function LinkKey(op: AsLinkOp): (int, int) { (op.a.number, op.b.number) }

  function SeeTransit(m: map<(int, int), Transit>, op: AsLinkOp): map<(int, int), Transit> {
    m[LinkKey(op) := Transit(op.ts, 1 + if LinkKey(op) in m then m[LinkKey(op)].seen else 0)]
  }

  function TargetKey(op: TargetOp): (int, string) { (op.prb, op.dst) }

  function SeeTarget(m: map<(int, string), Target>, op: TargetOp): map<(int, string), Target> {
    m[TargetKey(op) := Target(op.msm, op.ts)]
  }

  function PingKey(op: PingOp): (int, string) { (op.prb, op.dst) }

  function PingValue(op: PingOp): PingEdge {
    PingEdge(op.avg, op.min, op.max, op.loss, op.sent, op.rcvd, op.ts, op.msm)
  }

  function SeePing(m: map<(int, string), PingEdge>, op: PingOp): map<(int, string), PingEdge> {
    m[PingKey(op) := PingValue(op)]
  }

  /** A probe seen at some time, whichever query says so. */
  datatype Sighting = Sighting(prb: int, ts: int)

  function Seen0(t: Option<int>): int {
    if t.Some? then t.value else 0
  }

  /** Raise a last_seen, taking a missing one for 0. */
  function Later(t: Option<int>, ts: int): Option<int> {
    if Seen0(t) > ts then t else Some(ts)
  }

  function See(m: map<int, Option<int>>, s: Sighting): map<int, Option<int>> {
    m[s.prb := Later(if s.prb in m then m[s.prb] else None, s.ts)]
  }

  function LocatedSighting(op: LocatedOp): seq<Sighting> { [Sighting(op.prb, op.ts)] }

  function TargetSighting(op: TargetOp): seq<Sighting> { [Sighting(op.prb, op.ts)] }

  function PingSighting(op: PingOp): seq<Sighting> { [Sighting(op.prb, op.ts)] }

  function SetSource(m: map<int, Source>, op: LocatedOp): map<int, Source> {
    m[op.prb := Source(op.fromIP, op.fromAS.number, op.fromAS.org)]
  }

  /** Drop the probe's other locations, then MERGE this one and raise its last_seen. */
  function Locate(m: map<(int, string), Option<int>>, op: LocatedOp): map<(int, string), Option<int>> {
    var kept := map k | k in m && !(k.0 == op.prb && k.1 != op.fromIP) :: m[k];
    var key := (op.prb, op.fromIP);
    kept[key := Later(if key in kept then kept[key] else None, op.ts)]
  }

  // ---- queries ---------------------------------------------------------------------------------

  function UpsertNextHops(g: Graph, ops: seq<NextHopOp>): Graph {
    g.(ips := Fold(TouchTo, Fold(TouchFrom, g.ips, ops), ops), nextHop := Fold(SeeHop, g.nextHop, ops))
  }

  function UpsertInAS(g: Graph, ops: seq<InASOp>): Graph {
    g.(ips := Fold(SetAsn, g.ips, ops), ases := Fold(NameInAS, g.ases, ops), inAS := Fold(LinkInAS, g.inAS, ops))
  }

  function UpsertTransits(g: Graph, ops: seq<AsLinkOp>): Graph {
    g.(ases := Fold(NameB, Fold(NameA, g.ases, ops), ops), transits := Fold(SeeTransit, g.transits, ops))
  }

  function UpsertLocated(g: Graph, ops: seq<LocatedOp>): Graph {
    g.(probes := Fold(See, g.probes, FlatMap(LocatedSighting, ops)),
       sources := Fold(SetSource, g.sources, ops),
       ips := Fold(RaiseSource, g.ips, ops),
       located := Fold(Locate, g.located, ops))
  }

  function UpsertTargets(g: Graph, ops: seq<TargetOp>): Graph {
    g.(probes := Fold(See, g.probes, FlatMap(TargetSighting, ops)),
       ips := Fold(TouchTarget, g.ips, ops),
       targets := Fold(SeeTarget, g.targets, ops))
  }

  function UpsertPings(g: Graph, ops: seq<PingOp>): Graph {
    g.(probes := Fold(See, g.probes, FlatMap(PingSighting, ops)),
       ips := Fold(TouchPinged, g.ips, ops),
       ping := Fold(SeePing, g.ping, ops))
  }

  /** The queries a flush of the batch issues, in order. */
  function Flushed(g: Graph, b: Batch): Graph {
    var g1 := UpsertInAS(UpsertNextHops(g, b.nextHops), FlatMap(HopInAS, b.nextHops));
    var g2 := UpsertTransits(g1, b.asLinks);
    var g3 := UpsertTargets(UpsertLocated(g2, FlatMap(ProbeLocated, b.probes)), FlatMap(ProbeTarget, b.probes));
    var g4 := UpsertInAS(g3, FlatMap(ProbeInAS, b.probes));
    var g5 := UpsertLocated(UpsertPings(g4, b.pings), FlatMap(PingLocated, b.pings));
    UpsertInAS(g5, FlatMap(PingInAS, b.pings))
  }

  // ---- flush boundaries do not matter ---------------------------------------------------------------

  /** The measured relationships and when each probe was last seen. */
  datatype Core = Core(
    nextHop: map<Edge, HopEdge>,
    transits: map<(int, int), Transit>,
    targets: map<(int, string), Target>,
    ping: map<(int, string), PingEdge>,
    probes: map<int, Option<int>>)

  function CoreOf(g: Graph): Core {
    Core(g.nextHop, g.transits, g.targets, g.ping, g.probes)
  }

  function Sightings(b: Batch): seq<Sighting> {
    ProbeSightings(b.probes) + PingSightings(b.pings)
  }

  function ProbeSightings(ops: seq<ProbeOp>): seq<Sighting> {
    FlatMap(LocatedSighting, FlatMap(ProbeLocated, ops)) + FlatMap(TargetSighting, FlatMap(ProbeTarget, ops))
  }

  function PingSightings(ops: seq<PingOp>): seq<Sighting> {
    FlatMap(PingSighting, ops) + FlatMap(LocatedSighting, FlatMap(PingLocated, ops))
  }

  function FlushedCore(c: Core, b: Batch): Core {
    Core(Fold(SeeHop, c.nextHop, b.nextHops),
         Fold(SeeTransit, c.transits, b.asLinks),
         Fold(SeeTarget, c.targets, FlatMap(ProbeTarget, b.probes)),
         Fold(SeePing, c.ping, b.pings),
         Fold(See, c.probes, Sightings(b)))
  }

  lemma FlushActsOnCore(g: Graph, b: Batch)
    ensures CoreOf(Flushed(g, b)) == FlushedCore(CoreOf(g), b)
  {
    var l := FlatMap(LocatedSighting, FlatMap(ProbeLocated, b.probes));
    var t := FlatMap(TargetSighting, FlatMap(ProbeTarget, b.probes));
    var p, q := FlatMap(PingSighting, b.pings), FlatMap(LocatedSighting, FlatMap(PingLocated, b.pings));
    FoldAppend(See, g.probes, l + t, p + q);
    FoldAppend(See, g.probes, l, t);
    FoldAppend(See, Fold(See, g.probes, l + t), p, q);
  }

  // ---- sightings commute ------------------------------------------------------------------------------

  lemma SeeCommutes(m: map<int, Option<int>>, a: Sighting, b: Sighting)
    ensures See(See(m, a), b) == See(See(m, b), a)
  {
    assert See(See(m, a), b).Keys == m.Keys + {a.prb, b.prb} == See(See(m, b), a).Keys;
  }

  lemma {:induction false} SeeMovesFirst(m: map<int, Option<int>>, xs: seq<Sighting>, a: Sighting)
    ensures See(Fold(See, m, xs), a) == Fold(See, See(m, a), xs)
    decreases |xs|
  {
    if xs != [] {
      var n := |xs| - 1;
      SeeMovesFirst(m, xs[..n], a);
      SeeCommutes(Fold(See, m, xs[..n]), xs[n], a);
    }
  }

  lemma SeeMovesAcross(m: map<int, Option<int>>, xs: seq<Sighting>, a: Sighting, ys: seq<Sighting>)
    ensures Fold(See, m, (xs + [a]) + ys) == Fold(See, See(m, a), xs + ys)
  {
    FoldAppend(See, m, xs + [a], ys);
    FoldNext(See, m, xs, a);
    SeeMovesFirst(m, xs, a);
    FoldAppend(See, See(m, a), xs, ys);
  }

  /** Only which sightings there are matters, not their order. */
  lemma {:induction false} SightingsPermute(m: map<int, Option<int>>, xs: seq<Sighting>, ys: seq<Sighting>)
    requires multiset(xs) == multiset(ys)
    ensures Fold(See, m, xs) == Fold(See, m, ys)
    decreases |xs|
  {
    if xs == [] {
      assert |multiset(ys)| == 0;
    } else {
      var n := |xs| - 1;
      var i := FindLast(xs, ys);
      SightingsPermute(See(m, xs[n]), xs[..n], ys[..i] + ys[i + 1..]);
      SeeMovesFirst(m, xs[..n], xs[n]);
      SeeMovesAcross(m, ys[..i], xs[n], ys[i + 1..]);
    }
  }

  lemma TwiceMapped<A, B>(f: A -> seq<B>, g: B -> seq<Sighting>, xs: seq<A>, ys: seq<A>)
    ensures FlatMap(g, FlatMap(f, xs + ys)) == FlatMap(g, FlatMap(f, xs)) + FlatMap(g, FlatMap(f, ys))
  {
    FlatMapAppend(f, xs, ys);
    FlatMapAppend(g, FlatMap(f, xs), FlatMap(f, ys));
  }

  lemma Regroup(l: seq<Sighting>, l': seq<Sighting>, t: seq<Sighting>, t': seq<Sighting>,
                p: seq<Sighting>, p': seq<Sighting>, q: seq<Sighting>, q': seq<Sighting>)
    ensures multiset(((l + l') + (t + t')) + ((p + p') + (q + q')))
            == multiset(((l + t) + (p + q)) + ((l' + t') + (p' + q')))
  {
    var all := multiset(l) + multiset(l') + multiset(t) + multiset(t')
               + multiset(p) + multiset(p') + multiset(q) + multiset(q');
    assert multiset(((l + l') + (t + t')) + ((p + p') + (q + q'))) == all;
    assert multiset(((l + t) + (p + q)) + ((l' + t') + (p' + q'))) == all;
  }

  lemma SightingsAppend(a: Batch, b: Batch)
    ensures multiset(Sightings(a.Plus(b))) == multiset(Sightings(a) + Sightings(b))
  {
    TwiceMapped(ProbeLocated, LocatedSighting, a.probes, b.probes);
    TwiceMapped(ProbeTarget, TargetSighting, a.probes, b.probes);
    FlatMapAppend(PingSighting, a.pings, b.pings);
    TwiceMapped(PingLocated, LocatedSighting, a.pings, b.pings);
    Regroup(FlatMap(LocatedSighting, FlatMap(ProbeLocated, a.probes)),
            FlatMap(LocatedSighting, FlatMap(ProbeLocated, b.probes)),
            FlatMap(TargetSighting, FlatMap(ProbeTarget, a.probes)),
            FlatMap(TargetSighting, FlatMap(ProbeTarget, b.probes)),
            FlatMap(PingSighting, a.pings),
            FlatMap(PingSighting, b.pings),
            FlatMap(LocatedSighting, FlatMap(PingLocated, a.pings)),
            FlatMap(LocatedSighting, FlatMap(PingLocated, b.pings)));
  }

  /** Flushing two batches leaves the same measured relationships as flushing them as one. */
  lemma FlushesMerge(c: Core, a: Batch, b: Batch)
    ensures FlushedCore(FlushedCore(c, a), b) == FlushedCore(c, a.Plus(b))
  {
    FoldAppend(SeeHop, c.nextHop, a.nextHops, b.nextHops);
    FoldAppend(SeeTransit, c.transits, a.asLinks, b.asLinks);
    FlatMapAppend(ProbeTarget, a.probes, b.probes);
    FoldAppend(SeeTarget, c.targets, FlatMap(ProbeTarget, a.probes), FlatMap(ProbeTarget, b.probes));
    FoldAppend(SeePing, c.ping, a.pings, b.pings);
    FoldAppend(See, c.probes, Sightings(a), Sightings(b));
    SightingsAppend(a, b);
    SightingsPermute(c.probes, Sightings(a.Plus(b)), Sightings(a) + Sightings(b));
  }

  // ---- what the tables say, row by row --------------------------------------------------------------

  /** How many operations name `k`. */
  function Tally<A, K(==)>(key: A -> K, ops: seq<A>, k: K): nat
    decreases |ops|
  {
    if ops == [] then 0
    else Tally(key, ops[..|ops| - 1], k) + if key(ops[|ops| - 1]) == k then 1 else 0
  }

  /** The last operation that names `k`. */
  function Last<A, K(==)>(key: A -> K, ops: seq<A>, k: K): Option<A>
    decreases |ops|
  {
    if ops == [] then None
    else if key(ops[|ops| - 1]) == k then Some(ops[|ops| - 1])
    else Last(key, ops[..|ops| - 1], k)
  }

  lemma {:induction false} LastIsTallied<A, K>(key: A -> K, ops: seq<A>, k: K)
    ensures Last(key, ops, k).Some? <==> Tally(key, ops, k) > 0
    ensures Last(key, ops, k).Some? ==> key(Last(key, ops, k).value) == k
    decreases |ops|
  {
    if ops != [] {
      LastIsTallied(key, ops[..|ops| - 1], k);
    }
  }

  /** A NEXT_HOP edge shows the last observation of its pair and counts all of them. */
  lemma {:induction false} HopsAreCounted(m: map<Edge, HopEdge>, ops: seq<NextHopOp>, k: Edge)
    ensures var r := Fold(SeeHop, m, ops);
      && (k in r <==> k in m || Tally(HopKey, ops, k) > 0)
      && (k in r ==> r[k].seen == Tally(HopKey, ops, k) + if k in m then m[k].seen else 0)
      && (k in r ==> match Last(HopKey, ops, k)
                     case Some(op) => r[k].rtt == op.rtt && r[k].lastSeen == op.ts && r[k].proto == op.proto
                     case None => k in m && r[k] == m[k])
    decreases |ops|
  {
    if ops != [] {
      HopsAreCounted(m, ops[..|ops| - 1], k);
      LastIsTallied(HopKey, ops[..|ops| - 1], k);
    }
  }

  /** A TRANSITS edge shows the last observation of its AS pair and counts all of them. */
  lemma {:induction false} TransitsAreCounted(m: map<(int, int), Transit>, ops: seq<AsLinkOp>, k: (int, int))
    ensures var r := Fold(SeeTransit, m, ops);
      && (k in r <==> k in m || Tally(LinkKey, ops, k) > 0)
      && (k in r ==> r[k].seen == Tally(LinkKey, ops, k) + if k in m then m[k].seen else 0)
      && (k in r ==> match Last(LinkKey, ops, k)
                     case Some(op) => r[k].lastSeen == op.ts
                     case None => k in m && r[k] == m[k])
    decreases |ops|
  {
    if ops != [] {
      TransitsAreCounted(m, ops[..|ops| - 1], k);
      LastIsTallied(LinkKey, ops[..|ops| - 1], k);
    }
  }

  /** A PING edge shows the last measurement of its pair. */
  lemma {:induction false} PingsAreLast(m: map<(int, string), PingEdge>, ops: seq<PingOp>, k: (int, string))
    ensures var r := Fold(SeePing, m, ops);
      match Last(PingKey, ops, k)
      case Some(op) =>
        k in r && r[k] == PingEdge(op.avg, op.min, op.max, op.loss, op.sent, op.rcvd, op.ts, op.msm)
      case None => (k in r <==> k in m) && (k in r ==> r[k] == m[k])
    decreases |ops|
  {
    if ops != [] {
      PingsAreLast(m, ops[..|ops| - 1], k);
    }
  }

  /** A TARGETS edge shows the last measurement of its pair. */
  lemma {:induction false} TargetsAreLast(m: map<(int, string), Target>, ops: seq<TargetOp>, k: (int, string))
    ensures var r := Fold(SeeTarget, m, ops);
      match Last(TargetKey, ops, k)
      case Some(op) => k in r && r[k] == Target(op.msm, op.ts)
      case None => (k in r <==> k in m) && (k in r ==> r[k] == m[k])
    decreases |ops|
  {
    if ops != [] {
      TargetsAreLast(m, ops[..|ops| - 1], k);
    }
  }

  /** A probe's last_seen covers every sighting and is one of them, or what it was. */
  lemma {:induction false} ProbesAreLatest(m: map<int, Option<int>>, ss: seq<Sighting>, prb: int)
    ensures var r := Fold(See, m, ss);
      && (prb in r <==> prb in m || exists i :: 0 <= i < |ss| && ss[i].prb == prb)
      && (forall i :: 0 <= i < |ss| && ss[i].prb == prb ==> Seen0(r[prb]) >= ss[i].ts)
      && (prb in m ==> Seen0(r[prb]) >= Seen0(m[prb]))
      && (prb in r ==> r[prb] == (if prb in m then m[prb] else None)
                       || exists i :: 0 <= i < |ss| && ss[i].prb == prb && r[prb] == Some(ss[i].ts))
    decreases |ss|
  {
    if ss != [] {
      var n := |ss| - 1;
      var front := ss[..n];
      ProbesAreLatest(m, front, prb);
      assert forall i :: 0 <= i < n ==> ss[i] == front[i];
    }
  }

  /** The last organization that is not blank among those given for AS `n`. */
  function KnownName<A>(info: A -> AsInfo, ops: seq<A>, n: int): Option<string>
    decreases |ops|
  {
    if ops == [] then None
    else
      var last := info(ops[|ops| - 1]);
      if last.number == n && last.org != "" then Some(last.org) else KnownName(info, ops[..|ops| - 1], n)
  }

  /** What naming ASes one after the other leaves: a blank organization never replaces a known one. */
  ghost predicate IsNamed<A(!new)>(ases: map<int, string>, q: map<int, string>, info: A -> AsInfo, ops: seq<A>,
                                   n: int) {
    && (n in q <==> n in ases || exists op :: op in ops && info(op).number == n)
    && match KnownName(info, ops, n)
       case Some(org) => n in q && q[n] == org
       case None => n in q ==> q[n] == if n in ases then ases[n] else ""
  }

  lemma {:induction false} NamesAreKept<A(!new)>(
      f: (map<int, string>, A) -> map<int, string>, info: A -> AsInfo, ases: map<int, string>, ops: seq<A>, n: int)
    requires forall t: map<int, string>, a: A :: f(t, a) == NameAS(t, info(a))
    ensures IsNamed(ases, Fold(f, ases, ops), info, ops, n)
    decreases |ops|
  {
    if ops != [] {
      var init, last := ops[..|ops| - 1], ops[|ops| - 1];
      NamesAreKept(f, info, ases, init, n);
      assert forall op :: op in ops <==> op in init || op == last;
    }
  }

  /** Both queries that name ASes keep to that; `mid` is between the two clauses of the second. */
  lemma OrganizationsAreLatest(g: Graph, rows: seq<InASOp>, links: seq<AsLinkOp>, n: int)
    returns (mid: map<int, string>)
    ensures IsNamed(g.ases, UpsertInAS(g, rows).ases, (op: InASOp) => AsInfo(op.asn, op.org), rows, n)
    ensures IsNamed(g.ases, mid, (op: AsLinkOp) => op.a, links, n)
    ensures IsNamed(mid, UpsertTransits(g, links).ases, (op: AsLinkOp) => op.b, links, n)
  {
    NamesAreKept(NameInAS, (op: InASOp) => AsInfo(op.asn, op.org), g.ases, rows, n);
    mid := Fold(NameA, g.ases, links);
    NamesAreKept(NameA, (op: AsLinkOp) => op.a, g.ases, links, n);
    NamesAreKept(NameB, (op: AsLinkOp) => op.b, mid, links, n);
  }

  /** An IP shows the AS number of the last IN_AS row that names it. */
  lemma {:induction false} NumbersAreLast(ips: map<string, Ip>, rows: seq<InASOp>, a: string, i: nat)
    requires i < |rows| && rows[i].addr == a && forall j :: i < j < |rows| ==> rows[j].addr != a
    ensures a in Fold(SetAsn, ips, rows) && Fold(SetAsn, ips, rows)[a].asn == Some(rows[i].asn)
    decreases |rows|
  {
    if i < |rows| - 1 {
      NumbersAreLast(ips, rows[..|rows| - 1], a, i);
    }
  }

  // ---- every write keeps the graph well formed -----------------------------------------------------------

  /** A probe was last seen no earlier than any of its measurements and its location. */
  ghost predicate Dominated(g: Graph) {
    && (forall k :: k in g.ping ==> Covers(g.probes, k.0, g.ping[k].lastSeen))
    && (forall k :: k in g.targets ==> Covers(g.probes, k.0, g.targets[k].lastSeen))
    && PlacesCovered(g.probes, g.located)
  }

  /** Every relationship joins existing nodes. */
  ghost predicate NoDangling(g: Graph) {
    && (forall k :: k in g.ping ==> k.0 in g.probes && k.1 in g.ips)
    && (forall k :: k in g.targets ==> k.0 in g.probes && k.1 in g.ips)
    && (forall k :: k in g.located ==> k.0 in g.probes && k.1 in g.ips)
    && (forall k :: k in g.nextHop ==> k.0 in g.ips && k.1 in g.ips)
    && (forall k :: k in g.transits ==> k.0 in g.ases && k.1 in g.ases)
    && (forall k :: k in g.inAS ==> k.0 in g.ips && k.1 in g.ases)
  }

  /** One write query of a flush. */
  datatype Query =
    | NextHops(hops: seq<NextHopOp>)
    | InAS(rows: seq<InASOp>)
    | Transits(links: seq<AsLinkOp>)
    | Located(places: seq<LocatedOp>)
    | Targets(goals: seq<TargetOp>)
    | Pings(pings: seq<PingOp>)

  function Execute(g: Graph, q: Query): Graph {
    match q
    case NextHops(ops) => UpsertNextHops(g, ops)
    case InAS(ops) => UpsertInAS(g, ops)
    case Transits(ops) => UpsertTransits(g, ops)
    case Located(ops) => UpsertLocated(g, ops)
    case Targets(ops) => UpsertTargets(g, ops)
    case Pings(ops) => UpsertPings(g, ops)
  }

  lemma {:induction false} OneEach<A, B>(f: A -> seq<B>, xs: seq<A>, i: nat)
    requires i < |xs| && forall j :: 0 <= j < |xs| ==> |f(xs[j])| == 1
    ensures |FlatMap(f, xs)| == |xs| && FlatMap(f, xs)[i] == f(xs[i])[0]
    decreases |xs|
  {
    var n := |xs| - 1;
    if n > 0 {
      OneEach(f, xs[..n], if i < n then i else 0);
    } else {
      assert FlatMap(f, xs[..0]) == [];
    }
  }

  /** The probe is known and was seen at `ts` or later. */
  ghost predicate Covers(probes: map<int, Option<int>>, prb: int, ts: int) {
    prb in probes && Seen0(probes[prb]) >= ts
  }

  lemma SightingsCover<A>(probes: map<int, Option<int>>, f: A -> seq<Sighting>, ops: seq<A>)
    requires forall i :: 0 <= i < |ops| ==> |f(ops[i])| == 1
    ensures var r := Fold(See, probes, FlatMap(f, ops));
      && (forall i :: 0 <= i < |ops| ==> Covers(r, f(ops[i])[0].prb, f(ops[i])[0].ts))
      && probes.Keys <= r.Keys
      && (forall prb :: prb in probes ==> Seen0(r[prb]) >= Seen0(probes[prb]))
  {
    var ss := FlatMap(f, ops);
    forall i | 0 <= i < |ops|
      ensures Covers(Fold(See, probes, ss), f(ops[i])[0].prb, f(ops[i])[0].ts)
    {
      OneEach(f, ops, i);
      ProbesAreLatest(probes, ss, ss[i].prb);
    }
    forall prb | prb in probes
      ensures prb in Fold(See, probes, ss) && Seen0(Fold(See, probes, ss)[prb]) >= Seen0(probes[prb])
    {
      ProbesAreLatest(probes, ss, prb);
    }
  }

  /** The probes of the rows are known afterwards, seen no earlier than the rows say, and none went back. */
  ghost predicate Sighted<A>(probes: map<int, Option<int>>, r: map<int, Option<int>>,
                             prb: A -> int, ts: A -> int, ops: seq<A>) {
    && (forall i :: 0 <= i < |ops| ==> Covers(r, prb(ops[i]), ts(ops[i])))
    && probes.Keys <= r.Keys
    && (forall p :: p in probes ==> Seen0(r[p]) >= Seen0(probes[p]))
  }

  lemma PingsSighted(g: Graph, ops: seq<PingOp>)
    ensures Sighted(g.probes, UpsertPings(g, ops).probes, (op: PingOp) => op.prb, (op: PingOp) => op.ts, ops)
  {
    SightingsCover(g.probes, PingSighting, ops);
    assert forall i :: 0 <= i < |ops| ==> PingSighting(ops[i])[0] == Sighting(ops[i].prb, ops[i].ts);
  }

  lemma TargetsSighted(g: Graph, ops: seq<TargetOp>)
    ensures Sighted(g.probes, UpsertTargets(g, ops).probes, (op: TargetOp) => op.prb, (op: TargetOp) => op.ts, ops)
  {
    SightingsCover(g.probes, TargetSighting, ops);
    assert forall i :: 0 <= i < |ops| ==> TargetSighting(ops[i])[0] == Sighting(ops[i].prb, ops[i].ts);
  }

  lemma LocatedSighted(g: Graph, ops: seq<LocatedOp>)
    ensures Sighted(g.probes, UpsertLocated(g, ops).probes, (op: LocatedOp) => op.prb, (op: LocatedOp) => op.ts, ops)
  {
    SightingsCover(g.probes, LocatedSighting, ops);
    assert forall i :: 0 <= i < |ops| ==> LocatedSighting(ops[i])[0] == Sighting(ops[i].prb, ops[i].ts);
  }

  lemma {:induction false} PingsCovered(probes: map<int, Option<int>>, m: map<(int, string), PingEdge>,
                                        ops: seq<PingOp>)
    requires forall k :: k in m ==> Covers(probes, k.0, m[k].lastSeen)
    requires forall i :: 0 <= i < |ops| ==> Covers(probes, ops[i].prb, ops[i].ts)
    ensures var r := Fold(SeePing, m, ops); forall k :: k in r ==> Covers(probes, k.0, r[k].lastSeen)
    decreases |ops|
  {
    if ops != [] {
      PingsCovered(probes, m, ops[..|ops| - 1]);
    }
  }

  lemma {:induction false} TargetsCovered(probes: map<int, Option<int>>, m: map<(int, string), Target>,
                                          ops: seq<TargetOp>)
    requires forall k :: k in m ==> Covers(probes, k.0, m[k].lastSeen)
    requires forall i :: 0 <= i < |ops| ==> Covers(probes, ops[i].prb, ops[i].ts)
    ensures var r := Fold(SeeTarget, m, ops); forall k :: k in r ==> Covers(probes, k.0, r[k].lastSeen)
    decreases |ops|
  {
    if ops != [] {
      TargetsCovered(probes, m, ops[..|ops| - 1]);
    }
  }

  ghost predicate PlacesCovered(probes: map<int, Option<int>>, m: map<(int, string), Option<int>>) {
    forall k :: k in m ==> k.0 in probes && (m[k].Some? ==> Covers(probes, k.0, m[k].value))
  }

  lemma {:induction false} LocatedCovered(probes: map<int, Option<int>>, m: map<(int, string), Option<int>>,
                                          ops: seq<LocatedOp>)
    requires PlacesCovered(probes, m)
    requires forall i :: 0 <= i < |ops| ==> Covers(probes, ops[i].prb, ops[i].ts)
    ensures PlacesCovered(probes, Fold(Locate, m, ops))
    decreases |ops|
  {
    if ops != [] {
      LocatedCovered(probes, m, ops[..|ops| - 1]);
    }
  }

  lemma LocatedDominates(g: Graph, ops: seq<LocatedOp>)
    requires Dominated(g)
    ensures Dominated(UpsertLocated(g, ops))
  {
    LocatedSighted(g, ops);
    LocatedCovered(UpsertLocated(g, ops).probes, g.located, ops);
  }

  lemma TargetsDominate(g: Graph, ops: seq<TargetOp>)
    requires Dominated(g)
    ensures Dominated(UpsertTargets(g, ops))
  {
    TargetsSighted(g, ops);
    TargetsCovered(UpsertTargets(g, ops).probes, g.targets, ops);
  }

  lemma PingsDominate(g: Graph, ops: seq<PingOp>)
    requires Dominated(g)
    ensures Dominated(UpsertPings(g, ops))
  {
    PingsSighted(g, ops);
    PingsCovered(UpsertPings(g, ops).probes, g.ping, ops);
  }

  /** Every write query keeps each probe's last_seen ahead of its measurements. */
  lemma ExecuteDominates(g: Graph, q: Query)
    requires Dominated(g)
    ensures Dominated(Execute(g, q))
  {
    match q
    case NextHops(_) =>
    case InAS(_) =>
    case Transits(_) =>
    case Located(ops) => LocatedDominates(g, ops);
    case Targets(ops) => TargetsDominate(g, ops);
    case Pings(ops) => PingsDominate(g, ops);
  }

  /** Rows merged into a node table keep its nodes and add their own. */
  lemma {:induction false} NodesMerged<K(!new), V(!new), A(!new)>(
      f: (map<K, V>, A) -> map<K, V>, key: A -> K, m: map<K, V>, ops: seq<A>)
    requires forall t: map<K, V>, a: A :: t.Keys + {key(a)} <= f(t, a).Keys
    ensures var r := Fold(f, m, ops); m.Keys <= r.Keys && forall i :: 0 <= i < |ops| ==> key(ops[i]) in r
    decreases |ops|
  {
    if ops != [] {
      var n := |ops| - 1;
      NodesMerged(f, key, m, ops[..n]);
      var t := Fold(f, m, ops[..n]);
      assert t.Keys + {key(ops[n])} <= f(t, ops[n]).Keys;
      forall i | 0 <= i < |ops|
        ensures key(ops[i]) in f(t, ops[n])
      {
        assert i < n ==> ops[..n][i] == ops[i];
      }
    }
  }

  /** Every relationship of a merged table was there before or is named by a row. */
  lemma {:induction false} EdgesMerged<K(!new), V(!new), A(!new)>(
      f: (map<K, V>, A) -> map<K, V>, key: A -> K, m: map<K, V>, ops: seq<A>, k: K)
    requires forall t: map<K, V>, a: A :: f(t, a).Keys <= t.Keys + {key(a)}
    requires k in Fold(f, m, ops)
    ensures k in m || exists i :: 0 <= i < |ops| && key(ops[i]) == k
    decreases |ops|
  {
    if ops != [] {
      var n := |ops| - 1;
      var t := Fold(f, m, ops[..n]);
      assert f(t, ops[n]).Keys <= t.Keys + {key(ops[n])};
      if k in t {
        EdgesMerged(f, key, m, ops[..n], k);
        assert forall i :: 0 <= i < n ==> ops[..n][i] == ops[i];
      }
    }
  }

  lemma NextHopsJoin(g: Graph, ops: seq<NextHopOp>)
    requires NoDangling(g)
    ensures NoDangling(UpsertNextHops(g, ops))
  {
    var r := UpsertNextHops(g, ops);
    var from, to := (op: NextHopOp) => op.from, (op: NextHopOp) => op.to;
    NodesMerged(TouchFrom, from, g.ips, ops);
    NodesMerged(TouchTo, to, Fold(TouchFrom, g.ips, ops), ops);
    forall k | k in r.nextHop
      ensures k.0 in r.ips && k.1 in r.ips
    {
      EdgesMerged(SeeHop, HopKey, g.nextHop, ops, k);
      if k !in g.nextHop {
        var i :| 0 <= i < |ops| && HopKey(ops[i]) == k;
        assert from(ops[i]) == k.0 && to(ops[i]) == k.1;
      }
    }
  }

  lemma TransitsJoin(g: Graph, ops: seq<AsLinkOp>)
    requires NoDangling(g)
    ensures NoDangling(UpsertTransits(g, ops))
  {
    var r := UpsertTransits(g, ops);
    var a, b := (op: AsLinkOp) => op.a.number, (op: AsLinkOp) => op.b.number;
    NodesMerged(NameA, a, g.ases, ops);
    NodesMerged(NameB, b, Fold(NameA, g.ases, ops), ops);
    forall k | k in r.transits
      ensures k.0 in r.ases && k.1 in r.ases
    {
      EdgesMerged(SeeTransit, LinkKey, g.transits, ops, k);
      if k !in g.transits {
        var i :| 0 <= i < |ops| && LinkKey(ops[i]) == k;
        assert a(ops[i]) == k.0 && b(ops[i]) == k.1;
      }
    }
  }

  lemma TargetsJoin(g: Graph, ops: seq<TargetOp>)
    requires NoDangling(g)
    ensures NoDangling(UpsertTargets(g, ops))
  {
    var r := UpsertTargets(g, ops);
    var dst := (op: TargetOp) => op.dst;
    NodesMerged(TouchTarget, dst, g.ips, ops);
    TargetsSighted(g, ops);
    forall k | k in r.targets
      ensures k.0 in r.probes && k.1 in r.ips
    {
      EdgesMerged(SeeTarget, TargetKey, g.targets, ops, k);
      if k !in g.targets {
        var i :| 0 <= i < |ops| && TargetKey(ops[i]) == k;
        assert dst(ops[i]) == k.1 && Covers(r.probes, ops[i].prb, ops[i].ts);
      }
    }
  }

  lemma PingsJoin(g: Graph, ops: seq<PingOp>)
    requires NoDangling(g)
    ensures NoDangling(UpsertPings(g, ops))
  {
    var r := UpsertPings(g, ops);
    var dst := (op: PingOp) => op.dst;
    NodesMerged(TouchPinged, dst, g.ips, ops);
    PingsSighted(g, ops);
    forall k | k in r.ping
      ensures k.0 in r.probes && k.1 in r.ips
    {
      EdgesMerged(SeePing, PingKey, g.ping, ops, k);
      if k !in g.ping {
        var i :| 0 <= i < |ops| && PingKey(ops[i]) == k;
        assert dst(ops[i]) == k.1 && Covers(r.probes, ops[i].prb, ops[i].ts);
      }
    }
  }

  function PlaceKey(op: LocatedOp): (int, string) { (op.prb, op.fromIP) }

  lemma LocatedJoin(g: Graph, ops: seq<LocatedOp>)
    requires NoDangling(g)
    ensures NoDangling(UpsertLocated(g, ops))
  {
    var r := UpsertLocated(g, ops);
    var src := (op: LocatedOp) => op.fromIP;
    NodesMerged(RaiseSource, src, g.ips, ops);
    LocatedSighted(g, ops);
    forall k | k in r.located
      ensures k.0 in r.probes && k.1 in r.ips
    {
      EdgesMerged(Locate, PlaceKey, g.located, ops, k);
      if k !in g.located {
        var i :| 0 <= i < |ops| && PlaceKey(ops[i]) == k;
        assert src(ops[i]) == k.1 && Covers(r.probes, ops[i].prb, ops[i].ts);
      }
    }
  }

  lemma {:induction false} InASPairs(s: set<(string, int)>, ops: seq<InASOp>, k: (string, int))
    requires k in Fold(LinkInAS, s, ops)
    ensures k in s || exists i :: 0 <= i < |ops| && ops[i].addr == k.0 && ops[i].asn == k.1
    decreases |ops|
  {
    if ops != [] {
      var n := |ops| - 1;
      if k in Fold(LinkInAS, s, ops[..n]) {
        InASPairs(s, ops[..n], k);
        assert forall i :: 0 <= i < n ==> ops[..n][i] == ops[i];
      }
    }
  }

  lemma InASJoin(g: Graph, ops: seq<InASOp>)
    requires NoDangling(g)
    ensures NoDangling(UpsertInAS(g, ops))
  {
    var r := UpsertInAS(g, ops);
    var addr, asn := (op: InASOp) => op.addr, (op: InASOp) => op.asn;
    NodesMerged(SetAsn, addr, g.ips, ops);
    NodesMerged(NameInAS, asn, g.ases, ops);
    forall k | k in r.inAS
      ensures k.0 in r.ips && k.1 in r.ases
    {
      InASPairs(g.inAS, ops, k);
      if k !in g.inAS {
        var i :| 0 <= i < |ops| && ops[i].addr == k.0 && ops[i].asn == k.1;
        assert addr(ops[i]) == k.0 && asn(ops[i]) == k.1;
      }
    }
  }

  /** Every write query leaves relationships only between existing nodes. */
  lemma ExecuteJoins(g: Graph, q: Query)
    requires NoDangling(g)
    ensures NoDangling(Execute(g, q))
  {
    match q
    case NextHops(ops) => NextHopsJoin(g, ops);
    case InAS(ops) => InASJoin(g, ops);
    case Transits(ops) => TransitsJoin(g, ops);
    case Located(ops) => LocatedJoin(g, ops);
    case Targets(ops) => TargetsJoin(g, ops);
    case Pings(ops) => PingsJoin(g, ops);
  }

  // ---- every flush does, too ------------------------------------------------------------------------------

  lemma QueryKeepsShape(g: Graph, q: Query)
    requires Dominated(g) && NoDangling(g)
    ensures Dominated(Execute(g, q)) && NoDangling(Execute(g, q))
  {
    ExecuteDominates(g, q);
    ExecuteJoins(g, q);
  }

  function ExecuteAll(g: Graph, qs: seq<Query>): Graph {
    Fold(Execute, g, qs)
  }

  lemma {:induction false} QueriesKeepShape(g: Graph, qs: seq<Query>)
    requires Dominated(g) && NoDangling(g)
    ensures Dominated(ExecuteAll(g, qs)) && NoDangling(ExecuteAll(g, qs))
    decreases |qs|
  {
    if qs != [] {
      QueriesKeepShape(g, qs[..|qs| - 1]);
      QueryKeepsShape(ExecuteAll(g, qs[..|qs| - 1]), qs[|qs| - 1]);
    }
  }

  lemma ThreeQueries(g: Graph, a: Query, b: Query, c: Query)
    ensures ExecuteAll(g, [a, b, c]) == Execute(Execute(Execute(g, a), b), c)
  {
    FoldOne(Execute, g, a);
    FoldNext(Execute, g, [a], b);
    FoldNext(Execute, g, [a] + [b], c);
    assert [a] + [b] + [c] == [a, b, c];
  }

  function TraceQueries(b: Batch): seq<Query> {
    [NextHops(b.nextHops), InAS(FlatMap(HopInAS, b.nextHops)), Transits(b.asLinks)]
  }

  function ProbeQueries(b: Batch): seq<Query> {
    [Located(FlatMap(ProbeLocated, b.probes)), Targets(FlatMap(ProbeTarget, b.probes)),
     InAS(FlatMap(ProbeInAS, b.probes))]
  }

  function PingQueries(b: Batch): seq<Query> {
    [Pings(b.pings), Located(FlatMap(PingLocated, b.pings)), InAS(FlatMap(PingInAS, b.pings))]
  }

  const FLUSH_LENGTH := 9

  /** The queries of a flush, in order; one without rows is not issued, and would change nothing. */
  function FlushQueries(b: Batch): seq<Query> {
    TraceQueries(b) + ProbeQueries(b) + PingQueries(b)
  }

  /** A flush is its queries, one after the other. */
  lemma FlushIsItsQueries(g: Graph, b: Batch)
    ensures |FlushQueries(b)| == FLUSH_LENGTH && ExecuteAll(g, FlushQueries(b)) == Flushed(g, b)
  {
    var x, y, z := TraceQueries(b), ProbeQueries(b), PingQueries(b);
    FoldAppend(Execute, g, x + y, z);
    FoldAppend(Execute, g, x, y);
    ThreeQueries(g, x[0], x[1], x[2]);
    ThreeQueries(ExecuteAll(g, x), y[0], y[1], y[2]);
    ThreeQueries(ExecuteAll(g, x + y), z[0], z[1], z[2]);
  }

  lemma FlushKeepsShape(g: Graph, b: Batch)
    requires Dominated(g) && NoDangling(g)
    ensures Dominated(Flushed(g, b)) && NoDangling(Flushed(g, b))
  {
    FlushIsItsQueries(g, b);
    QueriesKeepShape(g, FlushQueries(b));
  }

  /** The graph after the first `n` queries of a flush. */
  function Partly(g: Graph, b: Batch, n: nat): Graph {
    ExecuteAll(g, FlushQueries(b)[..Min(n, |FlushQueries(b)|)])
  }

  lemma PartlyNothing(g: Graph, b: Batch)
    ensures Partly(g, b, 0) == g
  {
  }

  lemma PartlyNext(g: Graph, b: Batch, n: nat)
    requires n < FLUSH_LENGTH
    ensures Partly(g, b, n + 1) == Execute(Partly(g, b, n), FlushQueries(b)[n])
  {
    assert FlushQueries(b)[..n + 1][..n] == FlushQueries(b)[..n];
  }

  lemma PartlyAll(g: Graph, b: Batch)
    ensures Partly(g, b, FLUSH_LENGTH) == Flushed(g, b)
  {
    FlushIsItsQueries(g, b);
    WholePrefix(FlushQueries(b));
  }

  lemma PartlyKeepsShape(g: Graph, b: Batch, n: nat)
    requires Dominated(g) && NoDangling(g)
    ensures Dominated(Partly(g, b, n)) && NoDangling(Partly(g, b, n))
  {
    QueriesKeepShape(g, FlushQueries(b)[..Min(n, |FlushQueries(b)|)]);
  }

  predicate HasNoRows(q: Query) {
    match q
    case NextHops(ops) => ops == []
    case InAS(ops) => ops == []
    case Transits(ops) => ops == []
    case Located(ops) => ops == []
    case Targets(ops) => ops == []
    case Pings(ops) => ops == []
  }

  lemma NoRowsNoChange(g: Graph, q: Query)
    requires HasNoRows(q)
    ensures Execute(g, q) == g
  {
  }

  // ---- a sequence of flushes --------------------------------------------------------------------------------

  function FlushedAll(g: Graph, bs: seq<Batch>): Graph
    decreases |bs|
  {
    if bs == [] then g else Flushed(FlushedAll(g, bs[..|bs| - 1]), bs[|bs| - 1])
  }

  /** All operations of the batches, in order. */
  function Joined(bs: seq<Batch>): Batch
    decreases |bs|
  {
    if bs == [] then EMPTY_BATCH else Joined(bs[..|bs| - 1]).Plus(bs[|bs| - 1])
  }

  lemma OneMoreFlush(g: Graph, bs: seq<Batch>, b: Batch)
    ensures FlushedAll(g, bs + [b]) == Flushed(FlushedAll(g, bs), b)
    ensures Joined(bs + [b]) == Joined(bs).Plus(b)
  {
    assert (bs + [b])[..|bs|] == bs;
  }

  lemma NothingToFlush(c: Core)
    ensures FlushedCore(c, EMPTY_BATCH) == c
  {
  }

  /** Wherever the flush boundaries fall, the measurements are those of one flush of everything. */
  lemma {:induction false} FlushesJoin(g: Graph, bs: seq<Batch>)
    ensures CoreOf(FlushedAll(g, bs)) == FlushedCore(CoreOf(g), Joined(bs))
    decreases |bs|
  {
    if bs == [] {
      NothingToFlush(CoreOf(g));
    } else {
      var init, last := bs[..|bs| - 1], bs[|bs| - 1];
      FlushesJoin(g, init);
      FlushActsOnCore(FlushedAll(g, init), last);
      FlushesMerge(CoreOf(g), Joined(init), last);
    }
  }

  lemma {:induction false} FlushesKeepShape(g: Graph, bs: seq<Batch>)
    requires Dominated(g) && NoDangling(g)
    ensures Dominated(FlushedAll(g, bs)) && NoDangling(FlushedAll(g, bs))
    decreases |bs|
  {
    if bs != [] {
      FlushesKeepShape(g, bs[..|bs| - 1]);
      FlushKeepsShape(FlushedAll(g, bs[..|bs| - 1]), bs[|bs| - 1]);
    }
  }
}
