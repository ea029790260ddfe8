/** The batching writer that turns measurement records into topology upserts. */
module TopologyWriter {
  import opened HopGraph
  import opened HopParsing
  import opened SelectLoop
  import opened Sequences
  import opened Topology
  import opened Wrappers

  datatype PingPayload = PingPayload(avg: real, min: real, max: real, sent: nat, rcvd: nat)

  /** A stream record; the two payloads are what decoding its JSON gives, None on malformed JSON. */
  datatype Record = Record(ts: int, msm: int, prb: int, kind: string, fromIP: string, af: int, proto: string,
                           dst: string, trace: Option<seq<seq<Reply>>>, ping: Option<PingPayload>)

  /** A hop with the AS its address maps to. */
  datatype RoutedHop = RoutedHop(addr: string, rtt: real, info: AsInfo)

  /** An address without a mapping, and the empty address, belong to no AS. */
  function LookupASN(asn: string -> Option<AsInfo>, ip: string): AsInfo {
    if ip == "" then AsInfo(0, "")
    else match asn(ip) case Some(info) => info case None => AsInfo(0, "")
  }

  // ---- the operations one record stands for ----------------------------------------------

  function Route(asn: string -> Option<AsInfo>, hops: seq<Hop>): seq<RoutedHop> {
    seq(|hops|, i requires 0 <= i < |hops| => RoutedHop(hops[i].addr, hops[i].rtt, LookupASN(asn, hops[i].addr)))
  }

  /** Consecutive hops are linked, except where an address is missing or repeated. */
  predicate Linked(a: RoutedHop, b: RoutedHop) {
    a.addr != "" && b.addr != "" && a.addr != b.addr
  }

  function HopRow(r: Record, a: RoutedHop, b: RoutedHop): seq<NextHopOp> {
    if Linked(a, b) then [NextHopOp(a.addr, b.addr, b.rtt, r.ts, r.proto, r.af, a.info, b.info)] else []
  }

  /** A link between two different known ASes. */
  function AsRow(r: Record, a: RoutedHop, b: RoutedHop): seq<AsLinkOp> {
    if Linked(a, b) && a.info.number > 0 && b.info.number > 0 && a.info.number != b.info.number
    then [AsLinkOp(a.info, b.info, r.ts)] else []
  }

  function NextHopOps(r: Record, hops: seq<RoutedHop>): seq<NextHopOp>
    decreases |hops|
  {
    if |hops| < 2 then []
    else NextHopOps(r, hops[..|hops| - 1]) + HopRow(r, hops[|hops| - 2], hops[|hops| - 1])
  }

  function AsLinkOps(r: Record, hops: seq<RoutedHop>): seq<AsLinkOp>
    decreases |hops|
  {
    if |hops| < 2 then []
    else AsLinkOps(r, hops[..|hops| - 1]) + AsRow(r, hops[|hops| - 2], hops[|hops| - 1])
  }

  function ProbeOps(asn: string -> Option<AsInfo>, r: Record): seq<ProbeOp> {
    if r.fromIP == "" && r.dst == "" then []
    else [ProbeOp(r.prb, r.fromIP, r.dst, r.msm, r.ts, r.af, LookupASN(asn, r.fromIP), LookupASN(asn, r.dst))]
  }

  function PingOps(asn: string -> Option<AsInfo>, r: Record, pl: PingPayload): seq<PingOp> {
    [PingOp(r.prb, r.dst, r.fromIP, pl.avg, pl.min, pl.max, pl.sent, pl.rcvd, LossRatio(pl.sent, pl.rcvd),
            r.ts, r.msm, r.af, LookupASN(asn, r.fromIP), LookupASN(asn, r.dst))]
  }

  /** The operations of a record, or None when the writer rejects it. */
  function RecordOps(asn: string -> Option<AsInfo>, r: Record): Option<Batch> {
    if r.kind == "traceroute" then
      match r.trace
      case None => None
      case Some(trace) =>
        var hops := Route(asn, ResponsiveHops(trace));
        Some(Batch(NextHopOps(r, hops), AsLinkOps(r, hops), ProbeOps(asn, r), []))
    else if r.kind == "ping" then
      match r.ping
      case None => None
      case Some(pl) => if r.dst == "" then None else Some(Batch([], [], [], PingOps(asn, r, pl)))
    else None
  }

  function AllOps(asn: string -> Option<AsInfo>, rs: seq<Record>): Batch
    decreases |rs|
  {
    if rs == [] then EMPTY_BATCH
    else
      var b := AllOps(asn, rs[..|rs| - 1]);
      match RecordOps(asn, rs[|rs| - 1]) case None => b case Some(ops) => b.Plus(ops)
  }

  /** One record, applied to the graph the moment it arrives. */
  function Apply(asn: string -> Option<AsInfo>, g: Graph, r: Record): Graph {
    match RecordOps(asn, r) case None => g case Some(ops) => Flushed(g, ops)
  }

  /** The reference: every record is applied to the graph the moment it arrives. */
  function ApplyEach(asn: string -> Option<AsInfo>, g: Graph, rs: seq<Record>): Graph
    decreases |rs|
  {
    if rs == [] then g else Apply(asn, ApplyEach(asn, g, rs[..|rs| - 1]), rs[|rs| - 1])
  }

  /** Applying records one at a time is flushing all their operations at once, as far as measurements go. */
  lemma {:induction false} ApplyEachIsOneFlush(asn: string -> Option<AsInfo>, g: Graph, rs: seq<Record>)
    ensures CoreOf(ApplyEach(asn, g, rs)) == FlushedCore(CoreOf(g), AllOps(asn, rs))
    decreases |rs|
  {
    if rs != [] {
      var front := rs[..|rs| - 1];
      ApplyEachIsOneFlush(asn, g, front);
      match RecordOps(asn, rs[|rs| - 1])
      case None =>
      case Some(ops) =>
        FlushActsOnCore(ApplyEach(asn, g, front), ops);
        FlushesMerge(CoreOf(g), AllOps(asn, front), ops);
    }
  }

  lemma AllOpsNext(asn: string -> Option<AsInfo>, rs: seq<Record>, r: Record)
    ensures AllOps(asn, rs + [r]) ==
      match RecordOps(asn, r) case None => AllOps(asn, rs) case Some(ops) => AllOps(asn, rs).Plus(ops)
  {
    assert (rs + [r])[..|rs|] == rs;
  }

  // ---- the writer --------------------------------------------------------------------------------

  class Writer {
    const asn: string -> Option<AsInfo>
    var graph: Graph
    var nextHops: seq<NextHopOp>
    var asLinks: seq<AsLinkOp>
    var probes: seq<ProbeOp>
    var pings: seq<PingOp>
    var skipped: nat
    var upserted: nat
    var flushes: nat

    constructor (asn: string -> Option<AsInfo>, graph: Graph)
      ensures this.asn == asn && this.graph == graph && Pending() == EMPTY_BATCH
      ensures skipped == upserted == flushes == 0
    {
      this.asn, this.graph := asn, graph;
      nextHops, asLinks, probes, pings := [], [], [], [];
      skipped, upserted, flushes := 0, 0, 0;
    }

    function Pending(): Batch
      reads this
    {
      Batch(nextHops, asLinks, probes, pings)
    }

    method Clear()
      modifies `nextHops, `asLinks, `probes, `pings
      ensures Pending() == EMPTY_BATCH
    {
      nextHops, asLinks, probes, pings := [], [], [], [];
    }

    method AppendTraceroute(r: Record) returns (ok: bool)
      requires r.kind == "traceroute"
      modifies `nextHops, `asLinks, `probes
      ensures ok == RecordOps(asn, r).Some?
      ensures Pending() == if ok then old(Pending()).Plus(RecordOps(asn, r).value) else old(Pending())
    {
      if r.trace.None? {
        return false;
      }
      var found := ExtractResponsiveHops(r.trace.value);
      var hops := AnnotateHops(found);
      AppendHops(r, hops);
      assert probes == old(probes) + [];
      if r.fromIP != "" || r.dst != "" {
        var fromAS, dstAS := LookupASN(asn, r.fromIP), LookupASN(asn, r.dst);
        probes := probes + [ProbeOp(r.prb, r.fromIP, r.dst, r.msm, r.ts, r.af, fromAS, dstAS)];
      }
      assert pings == old(pings) + [];
      ok := true;
    }

    /** Link consecutive hops, and their ASes where those are known and differ. */
    method AppendHops(r: Record, hops: seq<RoutedHop>)
      modifies `nextHops, `asLinks
      ensures nextHops == old(nextHops) + NextHopOps(r, hops)
      ensures asLinks == old(asLinks) + AsLinkOps(r, hops)
    {
      if |hops| == 0 {
        NothingRight(nextHops);
        NothingRight(asLinks);
        return;
      }
      var i := 0;
      NothingRight(nextHops);
      NothingRight(asLinks);
      while i + 1 < |hops|
        invariant 0 <= i < |hops|
        invariant nextHops == old(nextHops) + NextHopOps(r, hops[..i + 1])
        invariant asLinks == old(asLinks) + AsLinkOps(r, hops[..i + 1])
      {
        var a, c := hops[i], hops[i + 1];
        assert hops[..i + 2][..i + 1] == hops[..i + 1];
        Assoc(old(nextHops), NextHopOps(r, hops[..i + 1]), HopRow(r, a, c));
        Assoc(old(asLinks), AsLinkOps(r, hops[..i + 1]), AsRow(r, a, c));
        NothingRight(nextHops);
        NothingRight(asLinks);
        i := i + 1;
        if a.addr == "" || c.addr == "" || a.addr == c.addr {
          continue;
        }
        nextHops := nextHops + [NextHopOp(a.addr, c.addr, c.rtt, r.ts, r.proto, r.af, a.info, c.info)];
        if a.info.number > 0 && c.info.number > 0 && a.info.number != c.info.number {
          asLinks := asLinks + [AsLinkOp(a.info, c.info, r.ts)];
        }
      }
      WholePrefix(hops);
    }

    method AnnotateHops(found: seq<Hop>) returns (hops: seq<RoutedHop>)
      ensures hops == Route(asn, found)
    {
      hops := [];
      for i := 0 to |found|
        invariant hops == Route(asn, found)[..i]
      {
        hops := hops + [RoutedHop(found[i].addr, found[i].rtt, LookupASN(asn, found[i].addr))];
      }
    }

    method AppendPing(r: Record) returns (ok: bool)
      requires r.kind == "ping"
      modifies `pings
      ensures ok == RecordOps(asn, r).Some?
      ensures Pending() == if ok then old(Pending()).Plus(RecordOps(asn, r).value) else old(Pending())
    {
      if r.ping.None? {
        return false;
      }
      if r.dst == "" {
        return false;
      }
      var pl := r.ping.value;
      var loss := LossRatio(pl.sent, pl.rcvd);
      pings := pings + [PingOp(r.prb, r.dst, r.fromIP, pl.avg, pl.min, pl.max, pl.sent, pl.rcvd, loss,
                               r.ts, r.msm, r.af, LookupASN(asn, r.fromIP), LookupASN(asn, r.dst))];
      assert nextHops == old(nextHops) + [] && asLinks == old(asLinks) + [] && probes == old(probes) + [];
      ok := true;
    }

    /** Convert a record; one that is rejected is counted and leaves the batch as it was. */
    method Ingest(r: Record) returns (ok: bool)
      modifies `nextHops, `asLinks, `probes, `pings, `skipped
      ensures ok == RecordOps(asn, r).Some?
      ensures Pending() == if ok then old(Pending()).Plus(RecordOps(asn, r).value) else old(Pending())
      ensures skipped == old(skipped) + if ok then 0 else 1
    {
      ok := false;
      if r.kind == "traceroute" {
        ok := AppendTraceroute(r);
      } else if r.kind == "ping" {
        ok := AppendPing(r);
      }
      if !ok {
        skipped := skipped + 1;
      }
    }

    /** One query of a flush. A call that fails may have taken effect all the same. */
    method Issue(q: Query, ghost g: Graph, ghost b: Batch, ghost i: nat) returns (ok: bool, ghost n: nat)
      requires i < FLUSH_LENGTH && q == FlushQueries(b)[i] && graph == Partly(g, b, i)
      modifies `graph
      ensures graph == Partly(g, b, n) && i <= n <= i + 1 && (ok ==> n == i + 1)
    {
      PartlyNext(g, b, i);
      ok, n := *, i;
      var took: bool := *;
      if ok || took {
        graph := Execute(graph, q);
        n := i + 1;
      }
    }

    /** The query of flushInAS, not issued for no rows. */
    method FlushInAS(rows: seq<InASOp>, ghost g: Graph, ghost b: Batch, ghost i: nat)
      returns (ok: bool, ghost n: nat)
      requires i < FLUSH_LENGTH && InAS(rows) == FlushQueries(b)[i] && graph == Partly(g, b, i)
      modifies `graph
      ensures graph == Partly(g, b, n) && i <= n <= i + 1 && (ok ==> n == i + 1)
    {
      if |rows| == 0 {
        SkipQuery(g, b, i);
        return true, i + 1;
      }
      ok, n := Issue(InAS(rows), g, b, i);
    }

    method FlushNextHops(ghost g: Graph, ghost b: Batch) returns (ok: bool, ghost n: nat)
      requires b == Pending() && graph == Partly(g, b, 0)
      modifies `graph
      ensures graph == Partly(g, b, n) && n <= 2 && (ok ==> n == 2)
    {
      if |nextHops| == 0 {
        SkipQuery(g, b, 0);
        SkipQuery(g, b, 1);
        return true, 2;
      }
      ok, n := Issue(NextHops(nextHops), g, b, 0);
      if !ok {
        return;
      }
      var inAS := HopRows(nextHops);
      ok, n := FlushInAS(inAS, g, b, 1);
    }

    method FlushAsLinks(ghost g: Graph, ghost b: Batch) returns (ok: bool, ghost n: nat)
      requires b == Pending() && graph == Partly(g, b, 2)
      modifies `graph
      ensures graph == Partly(g, b, n) && 2 <= n <= 3 && (ok ==> n == 3)
    {
      if |asLinks| == 0 {
        SkipQuery(g, b, 2);
        return true, 3;
      }
      ok, n := Issue(Transits(asLinks), g, b, 2);
    }

    method FlushLocated(rows: seq<LocatedOp>, ghost g: Graph, ghost b: Batch, ghost i: nat)
      returns (ok: bool, ghost n: nat)
      requires i < FLUSH_LENGTH && Located(rows) == FlushQueries(b)[i] && graph == Partly(g, b, i)
      modifies `graph
      ensures graph == Partly(g, b, n) && i <= n <= i + 1 && (ok ==> n == i + 1)
    {
      if |rows| == 0 {
        SkipQuery(g, b, i);
        return true, i + 1;
      }
      ok, n := Issue(Located(rows), g, b, i);
    }

    method FlushTargets(rows: seq<TargetOp>, ghost g: Graph, ghost b: Batch) returns (ok: bool, ghost n: nat)
      requires Targets(rows) == FlushQueries(b)[4] && graph == Partly(g, b, 4)
      modifies `graph
      ensures graph == Partly(g, b, n) && 4 <= n <= 5 && (ok ==> n == 5)
    {
      if |rows| == 0 {
        SkipQuery(g, b, 4);
        return true, 5;
      }
      ok, n := Issue(Targets(rows), g, b, 4);
    }

    method FlushProbes(ghost g: Graph, ghost b: Batch) returns (ok: bool, ghost n: nat)
      requires b == Pending() && graph == Partly(g, b, 3)
      modifies `graph
      ensures graph == Partly(g, b, n) && 3 <= n <= 6 && (ok ==> n == 6)
    {
      if |probes| == 0 {
        SkipProbes(g, b);
        return true, 6;
      }
      var located, targets, inAS := ProbeRows(probes);
      ok, n := FlushLocated(located, g, b, 3);
      if !ok {
        return;
      }
      ok, n := FlushTargets(targets, g, b);
      if !ok {
        return;
      }
      ok, n := FlushInAS(inAS, g, b, 5);
    }

    method FlushPings(ghost g: Graph, ghost b: Batch) returns (ok: bool, ghost n: nat)
      requires b == Pending() && graph == Partly(g, b, 6)
      modifies `graph
      ensures graph == Partly(g, b, n) && 6 <= n <= 9 && (ok ==> n == 9)
    {
      if |pings| == 0 {
        SkipPings(g, b);
        return true, 9;
      }
      ok, n := Issue(Pings(pings), g, b, 6);
      if !ok {
        return;
      }
      ok, n := FlushPingRows(g, b);
    }

    method FlushPingRows(ghost g: Graph, ghost b: Batch) returns (ok: bool, ghost n: nat)
      requires b.pings == pings && graph == Partly(g, b, 7)
      modifies `graph
      ensures graph == Partly(g, b, n) && 7 <= n <= 9 && (ok ==> n == 9)
    {
      var located, inAS := PingRows(pings);
      ok, n := FlushLocated(located, g, b, 7);
      if !ok {
        return;
      }
      ok, n := FlushInAS(inAS, g, b, 8);
    }

    /**
      * Issue the queries of the pending batch, category by category, until one fails; none when the context is
      * already done.
      */
    method FlushBatch(ghost g: Graph, ghost b: Batch) returns (ok: bool, ghost n: nat)
      requires g == graph && b == Pending()
      modifies `graph
      ensures n <= FLUSH_LENGTH && graph == Partly(g, b, n)
      ensures ok ==> n == FLUSH_LENGTH && graph == Flushed(g, b)
    {
      PartlyNothing(g, b);
      PartlyAll(g, b);
      ok, n := *, 0;
      if ok {
        ok, n := FlushNextHops(g, b);
      }
      if ok {
        ok, n := FlushAsLinks(g, b);
      }
      if ok {
        ok, n := FlushProbes(g, b);
      }
      if ok {
        ok, n := FlushPings(g, b);
      }
    }

    /** Try to write out the pending batch, if there is any; start an empty one, whether or not that failed. */
    method Flush() returns (ghost t: Attempt)
      modifies this
      ensures Pending() == EMPTY_BATCH && skipped == old(skipped)
      ensures t.batch == old(Pending()) && t.IsSound() && graph == Partly(old(graph), t.batch, t.queries)
      ensures upserted == old(upserted) + if t.ok then t.batch.Len() else 0
      ensures flushes == old(flushes) + if t.ok && t.batch.Len() > 0 then 1 else 0
      ensures t.batch.Len() == 0 ==> t.ok
    {
      var n := |nextHops| + |asLinks| + |probes| + |pings|;
      if n == 0 {
        NothingTried(graph, Pending());
        t := Attempt(Pending(), FLUSH_LENGTH, true);
        return;
      }
      var ok;
      ok, t := TryBatch(Pending());
      Clear();
      if ok {
        flushes := flushes + 1;
        upserted := upserted + n;
      }
    }

    method TryBatch(ghost b: Batch) returns (ok: bool, ghost t: Attempt)
      requires b == Pending()
      modifies `graph
      ensures t.batch == b && t.ok == ok && t.IsSound() && graph == Partly(old(graph), b, t.queries)
    {
      ghost var n;
      ok, n := FlushBatch(graph, b);
      t := Attempt(b, n, ok);
    }

    /**
      * Since `was`, the flushes `tries` have been tried, with the batches that `p` tells, and the counters
      * account for them and for the records `rs`.
      */
    ghost predicate Accounts(was: Totals, tries: seq<Attempt>, p: Progress, rs: seq<Record>)
      reads this
    {
      && AreSound(tries) && graph == Tried(was.graph, tries)
      && p == Progress(Batches(tries), Pending())
      && skipped == was.skipped + Rejected(asn, rs)
      && upserted == was.upserted + Joined(Written(tries)).Len()
      && flushes == was.flushes + |Written(tries)|
    }

    /** Ingest one more record; its operations are pending from here on. */
    method Take(r: Record, ghost was: Totals, ghost tries: seq<Attempt>, ghost p: Progress, ghost rs: seq<Record>)
      returns (ok: bool)
      requires Accounts(was, tries, p, rs)
      modifies `nextHops, `asLinks, `probes, `pings, `skipped
      ensures Accounts(was, tries, Grown(asn, p, r), rs + [r])
      ensures ok == RecordOps(asn, r).Some?
    {
      ok := Ingest(r);
      RejectedNext(asn, rs, r);
    }

    /** Take everything still buffered, without waiting for more. */
    method Drain(buffered: seq<Record>, ghost was: Totals, ghost tries: seq<Attempt>, ghost p: Progress,
                 ghost rs: seq<Record>)
      requires Accounts(was, tries, p, rs)
      modifies `nextHops, `asLinks, `probes, `pings, `skipped
      ensures Accounts(was, tries, Fold(Growing(asn), p, buffered), rs + buffered)
    {
      NothingRight(rs);
      for i := 0 to |buffered|
        invariant Accounts(was, tries, Fold(Growing(asn), p, buffered[..i]), rs + buffered[..i])
      {
        ghost var grown := Fold(Growing(asn), p, buffered[..i]);
        FoldNext(Growing(asn), p, buffered[..i], buffered[i]);
        PrefixNext(buffered, i);
        OneMore(rs, buffered, i);
        var ok := Take(buffered[i], was, tries, grown, rs + buffered[..i]);
      }
      WholePrefix(buffered);
    }

    method FlushPending(ghost was: Totals, ghost tries: seq<Attempt>, ghost p: Progress, ghost rs: seq<Record>)
      returns (ghost tries': seq<Attempt>)
      requires Accounts(was, tries, p, rs)
      modifies this
      ensures Accounts(was, tries', Emptied(p), rs)
    {
      ghost var t := Flush();
      tries' := TriedNext(was.graph, tries, t);
    }

    /** Take a record from the input and flush once the batch is full. */
    method Receive(r: Record, batchSize: nat, ghost was: Totals, ghost tries: seq<Attempt>, ghost p: Progress,
                   ghost rs: seq<Record>)
      returns (ghost tries': seq<Attempt>)
      requires Accounts(was, tries, p, rs)
      modifies this
      ensures Accounts(was, tries', Step(asn, p, Received(r), batchSize), rs + [r])
    {
      var ok := Take(r, was, tries, p, rs);
      tries' := tries;
      if !ok {
        return;
      }
      if |nextHops| + |asLinks| + |probes| + |pings| >= batchSize {
        tries' := FlushPending(was, tries, Grown(asn, p, r), rs + [r]);
      }
    }

    /** Take what is buffered and flush once more. */
    method Shutdown(buffered: seq<Record>, ghost was: Totals, ghost tries: seq<Attempt>, ghost p: Progress,
                    ghost rs: seq<Record>)
      returns (ghost tries': seq<Attempt>)
      requires Accounts(was, tries, p, rs)
      modifies this
      ensures Accounts(was, tries', Emptied(Fold(Growing(asn), p, buffered)), rs + buffered)
    {
      Drain(buffered, was, tries, p, rs);
      tries' := FlushPending(was, tries, Fold(Growing(asn), p, buffered), rs + buffered);
    }

    /** One turn of the select statement. */
    method Handle(e: Event<Record>, batchSize: nat, ghost was: Totals, ghost tries: seq<Attempt>, ghost p: Progress,
                  ghost rs: seq<Record>)
      returns (stop: bool, ghost tries': seq<Attempt>)
      requires Accounts(was, tries, p, rs)
      modifies this
      ensures Accounts(was, tries', Step(asn, p, e, batchSize), rs + e.Records()) && stop == e.Stops()
      ensures !e.Received? ==> Pending() == EMPTY_BATCH
    {
      NothingRight(rs);
      stop := e.Stops();
      ghost var rs', p' := rs + e.Records(), Step(asn, p, e, batchSize);
      match e
      case Received(r) =>
        tries' := Receive(r, batchSize, was, tries, p, rs);
        assert rs + [r] == rs';
      case Tick | Closed =>
        tries' := FlushPending(was, tries, p, rs);
        assert rs == rs' && Emptied(p) == p';
      case Cancelled(buffered) =>
        tries' := Shutdown(buffered, was, tries, p, rs);
        assert rs + buffered == rs' && Emptied(Fold(Growing(asn), p, buffered)) == p';
    }

    /**
      * The writer's loop over whatever its select statement delivers. `stopped` tells whether the
      * script got as far as the end of the input or a cancellation; `tries` is what was flushed, or failed to be.
      */
    method Run(script: seq<Event<Record>>, batchSize0: int) returns (stopped: bool, ghost tries: seq<Attempt>)
      requires Pending() == EMPTY_BATCH
      modifies this
      ensures stopped == Stopped(script)
      // every operation is in one tried batch or pending, and the queries that took effect made the graph
      ensures AreSound(tries) && graph == Tried(old(graph), tries)
      ensures Joined(Batches(tries)).Plus(Pending()) == AllOps(asn, Delivered(script))
      // batches are tried when they are full, at every tick, and at the end
      ensures After(asn, script, if batchSize0 <= 0 then 500 else batchSize0) == Progress(Batches(tries), Pending())
      ensures Pending().Len() < if batchSize0 <= 0 then 500 else batchSize0
      ensures stopped || (script != [] && script[|script| - 1].Tick?) ==> Pending() == EMPTY_BATCH
      // operations and flushes are counted when they were written, and lost otherwise
      ensures skipped == old(skipped) + Rejected(asn, Delivered(script))
      ensures upserted == old(upserted) + Joined(Written(tries)).Len() && flushes == old(flushes) + |Written(tries)|
      ensures AllOps(asn, Delivered(script)).Len() ==
              Joined(Written(tries)).Len() + Joined(Lost(tries)).Len() + Pending().Len()
      // failures that took no effect leave what the written batches make; without failures that is everything
      ensures FailedCleanly(tries) ==> graph == FlushedAll(old(graph), Written(tries))
      ensures Lost(tries) == [] ==>
        && Joined(Written(tries)).Plus(Pending()) == AllOps(asn, Delivered(script))
        && graph == FlushedAll(old(graph), Written(tries))
        && CoreOf(Flushed(graph, Pending())) == CoreOf(ApplyEach(asn, old(graph), Delivered(script)))
        && (stopped ==> CoreOf(graph) == CoreOf(ApplyEach(asn, old(graph), Delivered(script))))
      // whatever failed
      ensures Dominated(old(graph)) && NoDangling(old(graph)) ==> Dominated(graph) && NoDangling(graph)
      ensures FollowsLookup(asn, old(graph)) ==> FollowsLookup(asn, graph)
    {
      var batchSize := if batchSize0 <= 0 then 500 else batchSize0;
      ghost var was, rs: seq<Record> := Totals(graph, skipped, upserted, flushes), [];
      stopped, tries := false, [];
      for i := 0 to |script|
        invariant !stopped && rs == Delivered(script[..i]) && !Stopped(script[..i])
        invariant Accounts(was, tries, After(asn, script[..i], batchSize), rs)
      {
        DeliveredNext(script, i);
        AfterNext(asn, script, i, batchSize);
        stopped, tries := Handle(script[i], batchSize, was, tries, After(asn, script[..i], batchSize), rs);
        rs := rs + script[i].Records();
        if stopped {
          DeliveredOnceStopped(script, i + 1);
          AfterOnceStopped(asn, script, i + 1, batchSize);
          break;
        }
      }
      WholePrefix(script);
      BatchesAreOnTime(asn, script, batchSize);
      NothingIsLost(asn, script, batchSize);
      TriesAreAccounted(tries, Pending());
      AttemptsKeep(asn, was.graph, tries, Pending(), rs);
      AttemptsSucceeded(asn, was.graph, tries, Pending(), rs);
    }
  }

  // ---- when batches are tried ----------------------------------------------------------------------

  /** The batches that flushes were tried with, in order, and the pending one. */
  datatype Progress = Progress(tried: seq<Batch>, pending: Batch)

  function Emptied(p: Progress): Progress {
    if p.pending.Len() == 0 then p else Progress(p.tried + [p.pending], EMPTY_BATCH)
  }

  function Grown(asn: string -> Option<AsInfo>, p: Progress, r: Record): Progress {
    match RecordOps(asn, r) case None => p case Some(ops) => p.(pending := p.pending.Plus(ops))
  }

  function Growing(asn: string -> Option<AsInfo>): (Progress, Record) -> Progress {
    (p, r) => Grown(asn, p, r)
  }

  function Step(asn: string -> Option<AsInfo>, p: Progress, e: Event<Record>, batchSize: nat): Progress {
    match e
    case Received(r) =>
      var grown := Grown(asn, p, r);
      if RecordOps(asn, r).Some? && grown.pending.Len() >= batchSize then Emptied(grown) else grown
    case Tick | Closed => Emptied(p)
    case Cancelled(buffered) => Emptied(Fold(Growing(asn), p, buffered))
  }

  /** Where the writer stands after a script; what comes after its end does not matter. */
  function After(asn: string -> Option<AsInfo>, script: seq<Event<Record>>, batchSize: nat): Progress
    decreases |script|
  {
    if script == [] then Progress([], EMPTY_BATCH)
    else
      var front := script[..|script| - 1];
      if Stopped(front) then After(asn, front, batchSize)
      else Step(asn, After(asn, front, batchSize), script[|script| - 1], batchSize)
  }

  lemma AfterNext(asn: string -> Option<AsInfo>, script: seq<Event<Record>>, i: nat, batchSize: nat)
    requires i < |script| && !Stopped(script[..i])
    ensures After(asn, script[..i + 1], batchSize) ==
            Step(asn, After(asn, script[..i], batchSize), script[i], batchSize)
  {
    assert script[..i + 1][..i] == script[..i];
  }

  lemma {:induction false} AfterOnceStopped(asn: string -> Option<AsInfo>, script: seq<Event<Record>>, i: nat,
                                            batchSize: nat)
    requires i <= |script| && Stopped(script[..i])
    ensures After(asn, script, batchSize) == After(asn, script[..i], batchSize)
    decreases |script|
  {
    if i < |script| {
      var front := script[..|script| - 1];
      assert front[..i] == script[..i];
      DeliveredOnceStopped(front, i);
      AfterOnceStopped(asn, front, i, batchSize);
    } else {
      WholePrefix(script);
    }
  }

  lemma EmptiedIsAll(p: Progress)
    ensures Emptied(p).pending == EMPTY_BATCH
    ensures Joined(Emptied(p).tried).Plus(Emptied(p).pending) == Joined(p.tried).Plus(p.pending)
  {
    if p.pending.Len() != 0 {
      OneMoreFlush(EMPTY_GRAPH, p.tried, p.pending);
      PlusNothing(Joined(Emptied(p).tried));
    } else {
      assert p.pending == EMPTY_BATCH;
    }
  }

  lemma GrownAddsOps(asn: string -> Option<AsInfo>, p: Progress, rs: seq<Record>, r: Record)
    requires Joined(p.tried).Plus(p.pending) == AllOps(asn, rs)
    ensures Joined(Grown(asn, p, r).tried).Plus(Grown(asn, p, r).pending) == AllOps(asn, rs + [r])
  {
    OneMoreRecord(asn, Joined(p.tried), p.pending, rs, r);
  }

  lemma {:induction false} GrowingAddsOps(asn: string -> Option<AsInfo>, p: Progress, rs: seq<Record>,
                                          more: seq<Record>)
    requires Joined(p.tried).Plus(p.pending) == AllOps(asn, rs)
    ensures var q := Fold(Growing(asn), p, more);
      Joined(q.tried).Plus(q.pending) == AllOps(asn, rs + more)
    decreases |more|
  {
    if more == [] {
      NothingRight(rs);
    } else {
      var init, last := more[..|more| - 1], more[|more| - 1];
      GrowingAddsOps(asn, p, rs, init);
      GrownAddsOps(asn, Fold(Growing(asn), p, init), rs + init, last);
      SplitLast(more);
      Assoc(rs, init, [last]);
    }
  }

  lemma StepAddsOps(asn: string -> Option<AsInfo>, p: Progress, rs: seq<Record>, e: Event<Record>, batchSize: nat)
    requires Joined(p.tried).Plus(p.pending) == AllOps(asn, rs)
    ensures var q := Step(asn, p, e, batchSize);
      Joined(q.tried).Plus(q.pending) == AllOps(asn, rs + e.Records())
  {
    match e
    case Received(r) =>
      GrownAddsOps(asn, p, rs, r);
      EmptiedIsAll(Grown(asn, p, r));
    case Tick | Closed =>
      NothingRight(rs);
      EmptiedIsAll(p);
    case Cancelled(buffered) =>
      GrowingAddsOps(asn, p, rs, buffered);
      EmptiedIsAll(Fold(Growing(asn), p, buffered));
  }

  /** Every operation of every record taken is in exactly one tried batch or still pending, in order. */
  lemma {:induction false} NothingIsLost(asn: string -> Option<AsInfo>, script: seq<Event<Record>>, batchSize: nat)
    ensures var p := After(asn, script, batchSize);
      Joined(p.tried).Plus(p.pending) == AllOps(asn, Delivered(script))
    decreases |script|
  {
    if script != [] {
      var front := script[..|script| - 1];
      NothingIsLost(asn, front, batchSize);
      if !Stopped(front) {
        StepAddsOps(asn, After(asn, front, batchSize), Delivered(front), script[|script| - 1], batchSize);
      }
    }
  }

  /** Less than a batch is ever left pending, and nothing after a tick or the end. */
  lemma {:induction false} BatchesAreOnTime(asn: string -> Option<AsInfo>, script: seq<Event<Record>>, batchSize: nat)
    requires batchSize > 0
    ensures var p := After(asn, script, batchSize);
      && p.pending.Len() < batchSize
      && (Stopped(script) || (script != [] && script[|script| - 1].Tick?) ==> p.pending == EMPTY_BATCH)
    decreases |script|
  {
    if script != [] {
      var front, last := script[..|script| - 1], script[|script| - 1];
      BatchesAreOnTime(asn, front, batchSize);
      SplitLast(script);
      if !Stopped(front) {
        StepIsOnTime(asn, After(asn, front, batchSize), last, batchSize);
        assert Stopped(script) ==> last.Stops();
      }
    }
  }

  lemma StepIsOnTime(asn: string -> Option<AsInfo>, p: Progress, e: Event<Record>, batchSize: nat)
    requires p.pending.Len() < batchSize
    ensures Step(asn, p, e, batchSize).pending.Len() < batchSize
    ensures !e.Received? ==> Step(asn, p, e, batchSize).pending == EMPTY_BATCH
  {
    if e.Received? {
      EmptiedIsAll(Grown(asn, p, e.r));
    } else if e.Cancelled? {
      EmptiedIsAll(Fold(Growing(asn), p, e.buffered));
    } else {
      EmptiedIsAll(p);
    }
  }

  /**
    * No batch is tried early: when the `k`-th was, everything delivered so far was handed over with it, and
    * unless that was at a tick or the end it was full.
    */
  lemma {:induction false} WhenTried(asn: string -> Option<AsInfo>, script: seq<Event<Record>>, batchSize: nat, k: nat)
    returns (i: nat)
    requires k < |After(asn, script, batchSize).tried|
    ensures i < |script| && !Stopped(script[..i])
    ensures var tried := After(asn, script, batchSize).tried;
      && tried[k].Len() > 0 && (script[i].Received? ==> tried[k].Len() >= batchSize)
      && Joined(tried[..k + 1]) == AllOps(asn, Delivered(script[..i + 1]))
    decreases |script|
  {
    var front := script[..|script| - 1];
    if k < |After(asn, front, batchSize).tried| {
      i := WhenTried(asn, front, batchSize, k);
      TriedIsKept(asn, script, batchSize);
      KeptUpTo(front, script, i);
      KeptUpTo(After(asn, front, batchSize).tried, After(asn, script, batchSize).tried, k);
    } else {
      i := |script| - 1;
      TriedLast(asn, script, batchSize, k);
      WholePrefix(After(asn, script, batchSize).tried);
      WholePrefix(script);
    }
  }

  lemma TriedLast(asn: string -> Option<AsInfo>, script: seq<Event<Record>>, batchSize: nat, k: nat)
    requires script != [] && |After(asn, script[..|script| - 1], batchSize).tried| <= k
    requires k < |After(asn, script, batchSize).tried|
    ensures !Stopped(script[..|script| - 1])
    ensures var tried := After(asn, script, batchSize).tried;
      && |tried| == k + 1 && tried[k].Len() > 0
      && (script[|script| - 1].Received? ==> tried[k].Len() >= batchSize)
      && Joined(tried) == AllOps(asn, Delivered(script))
  {
    var before, last := After(asn, script[..|script| - 1], batchSize), script[|script| - 1];
    StepTries(asn, before, last, batchSize, k);
    NothingIsLost(asn, script, batchSize);
    PlusNothing(Joined(After(asn, script, batchSize).tried));
  }

  lemma StepTries(asn: string -> Option<AsInfo>, p: Progress, e: Event<Record>, batchSize: nat, k: nat)
    requires |p.tried| <= k < |Step(asn, p, e, batchSize).tried|
    ensures var q := Step(asn, p, e, batchSize);
      && |q.tried| == k + 1 && q.pending == EMPTY_BATCH && q.tried[k].Len() > 0
      && (e.Received? ==> q.tried[k].Len() >= batchSize)
  {
    StepTriesOnce(asn, p, e, batchSize);
  }

  lemma TriedIsKept(asn: string -> Option<AsInfo>, script: seq<Event<Record>>, batchSize: nat)
    requires script != []
    ensures After(asn, script[..|script| - 1], batchSize).tried <= After(asn, script, batchSize).tried
  {
    var front := script[..|script| - 1];
    if !Stopped(front) {
      StepTriesOnce(asn, After(asn, front, batchSize), script[|script| - 1], batchSize);
    }
  }

  /** A step tries one batch at most, and then nothing is pending. */
  lemma StepTriesOnce(asn: string -> Option<AsInfo>, p: Progress, e: Event<Record>, batchSize: nat)
    ensures var q := Step(asn, p, e, batchSize);
      && p.tried <= q.tried && |q.tried| <= |p.tried| + 1
      && (|q.tried| > |p.tried| ==>
            && q.pending == EMPTY_BATCH && q.tried[|p.tried|].Len() > 0
            && (e.Received? ==> q.tried[|p.tried|].Len() >= batchSize))
  {
    if e.Cancelled? {
      GrowingTriesNone(asn, p, e.buffered);
    }
  }

  lemma {:induction false} GrowingTriesNone(asn: string -> Option<AsInfo>, p: Progress, rs: seq<Record>)
    ensures Fold(Growing(asn), p, rs).tried == p.tried
    decreases |rs|
  {
    if rs != [] {
      GrowingTriesNone(asn, p, rs[..|rs| - 1]);
    }
  }

  /** Where the writer's state stood when it started. */
  datatype Totals = Totals(graph: Graph, skipped: nat, upserted: nat, flushes: nat)

  lemma PlusNothing(b: Batch)
    ensures b.Plus(EMPTY_BATCH) == b
  {
  }

  lemma PlusAssoc(a: Batch, b: Batch, c: Batch)
    ensures a.Plus(b).Plus(c) == a.Plus(b.Plus(c))
  {
    Assoc(a.nextHops, b.nextHops, c.nextHops);
    Assoc(a.asLinks, b.asLinks, c.asLinks);
    Assoc(a.probes, b.probes, c.probes);
    Assoc(a.pings, b.pings, c.pings);
  }

  // ---- flushes that were tried ---------------------------------------------------------------------

  /** A flush: its batch, how many of its queries took effect, and whether it was reported as written. */
  datatype Attempt = Attempt(batch: Batch, queries: nat, ok: bool) {
    predicate IsSound() {
      queries <= FLUSH_LENGTH && (ok ==> queries == FLUSH_LENGTH)
    }
  }

  predicate AreSound(tries: seq<Attempt>)
    decreases |tries|
  {
    tries == [] || (tries[|tries| - 1].IsSound() && AreSound(tries[..|tries| - 1]))
  }

  function Tried(g: Graph, tries: seq<Attempt>): Graph
    decreases |tries|
  {
    if tries == [] then g
    else Partly(Tried(g, tries[..|tries| - 1]), tries[|tries| - 1].batch, tries[|tries| - 1].queries)
  }

  function Batches(tries: seq<Attempt>): seq<Batch>
    decreases |tries|
  {
    if tries == [] then [] else Batches(tries[..|tries| - 1]) + [tries[|tries| - 1].batch]
  }

  function WithOutcome(tries: seq<Attempt>, ok: bool): seq<Batch>
    decreases |tries|
  {
    if tries == [] then []
    else
      WithOutcome(tries[..|tries| - 1], ok)
      + if tries[|tries| - 1].ok == ok then [tries[|tries| - 1].batch] else []
  }

  function Written(tries: seq<Attempt>): seq<Batch> {
    WithOutcome(tries, true)
  }

  function Lost(tries: seq<Attempt>): seq<Batch> {
    WithOutcome(tries, false)
  }

  /** No query of a failed flush took effect. */
  predicate FailedCleanly(tries: seq<Attempt>)
    decreases |tries|
  {
    tries == [] ||
    ((tries[|tries| - 1].ok || tries[|tries| - 1].queries == 0) && FailedCleanly(tries[..|tries| - 1]))
  }

  lemma SkipQuery(g: Graph, b: Batch, i: nat)
    requires i < FLUSH_LENGTH && HasNoRows(FlushQueries(b)[i])
    ensures Partly(g, b, i + 1) == Partly(g, b, i)
  {
    PartlyNext(g, b, i);
    NoRowsNoChange(Partly(g, b, i), FlushQueries(b)[i]);
  }

  lemma SkipProbes(g: Graph, b: Batch)
    requires b.probes == []
    ensures Partly(g, b, 6) == Partly(g, b, 3)
  {
    SkipQuery(g, b, 3);
    SkipQuery(g, b, 4);
    SkipQuery(g, b, 5);
  }

  lemma SkipPings(g: Graph, b: Batch)
    requires b.pings == []
    ensures Partly(g, b, 9) == Partly(g, b, 6)
  {
    SkipQuery(g, b, 6);
    SkipQuery(g, b, 7);
    SkipQuery(g, b, 8);
  }

  lemma NothingTried(g: Graph, b: Batch)
    requires b.Len() == 0
    ensures b == EMPTY_BATCH && Partly(g, b, FLUSH_LENGTH) == g
  {
    assert b == EMPTY_BATCH;
    PartlyAll(g, EMPTY_BATCH);
    FlushNothing(g);
  }

  /** One more flush was tried, unless there was nothing to flush; nothing is pending afterwards. */
  lemma TriedNext(g: Graph, tries: seq<Attempt>, t: Attempt) returns (tries': seq<Attempt>)
    requires AreSound(tries) && t.IsSound() && (t.batch.Len() == 0 ==> t.ok)
    ensures AreSound(tries') && Tried(g, tries') == Partly(Tried(g, tries), t.batch, t.queries)
    ensures Batches(tries') == if t.batch.Len() == 0 then Batches(tries) else Batches(tries) + [t.batch]
    ensures Joined(Written(tries')).Len() == Joined(Written(tries)).Len() + if t.ok then t.batch.Len() else 0
    ensures |Written(tries')| == |Written(tries)| + if t.ok && t.batch.Len() > 0 then 1 else 0
  {
    if t.batch.Len() == 0 {
      NothingTried(Tried(g, tries), t.batch);
      tries' := tries;
    } else {
      tries' := tries + [t];
      OneMoreTry(g, tries, t);
    }
  }

  lemma OneMoreTry(g: Graph, tries: seq<Attempt>, t: Attempt)
    requires AreSound(tries) && t.IsSound()
    ensures AreSound(tries + [t]) && Tried(g, tries + [t]) == Partly(Tried(g, tries), t.batch, t.queries)
    ensures Batches(tries + [t]) == Batches(tries) + [t.batch]
    ensures Joined(Written(tries + [t])).Len() == Joined(Written(tries)).Len() + if t.ok then t.batch.Len() else 0
    ensures |Written(tries + [t])| == |Written(tries)| + if t.ok then 1 else 0
  {
    assert (tries + [t])[..|tries|] == tries;
    OneMoreWritten(tries, t);
  }

  lemma OneMoreWritten(tries: seq<Attempt>, t: Attempt)
    ensures Joined(Written(tries + [t])).Len() == Joined(Written(tries)).Len() + if t.ok then t.batch.Len() else 0
    ensures |Written(tries + [t])| == |Written(tries)| + if t.ok then 1 else 0
  {
    assert (tries + [t])[..|tries|] == tries;
    OneMoreFlush(EMPTY_GRAPH, Written(tries), t.batch);
    NothingRight(Written(tries));
  }

  /** Every operation of a tried batch was written or lost. */
  lemma {:induction false} WrittenOrLost(tries: seq<Attempt>)
    ensures Joined(Batches(tries)).Len() == Joined(Written(tries)).Len() + Joined(Lost(tries)).Len()
    decreases |tries|
  {
    if tries != [] {
      var init, last := tries[..|tries| - 1], tries[|tries| - 1];
      WrittenOrLost(init);
      OneMoreFlush(EMPTY_GRAPH, Batches(init), last.batch);
      OneMoreFlush(EMPTY_GRAPH, WithOutcome(init, last.ok), last.batch);
      NothingRight(WithOutcome(init, !last.ok));
    }
  }

  lemma TriesAreAccounted(tries: seq<Attempt>, pending: Batch)
    ensures Joined(Batches(tries)).Plus(pending).Len() ==
            Joined(Written(tries)).Len() + Joined(Lost(tries)).Len() + pending.Len()
  {
    WrittenOrLost(tries);
  }

  /** Flushes that failed without effect might as well not have been tried. */
  lemma {:induction false} CleanFailuresDoNothing(g: Graph, tries: seq<Attempt>)
    requires AreSound(tries) && FailedCleanly(tries)
    ensures Tried(g, tries) == FlushedAll(g, Written(tries))
    decreases |tries|
  {
    if tries != [] {
      var init, last := tries[..|tries| - 1], tries[|tries| - 1];
      CleanFailuresDoNothing(g, init);
      if last.ok {
        PartlyAll(Tried(g, init), last.batch);
        OneMoreFlush(g, Written(init), last.batch);
      } else {
        PartlyNothing(Tried(g, init), last.batch);
        NothingRight(Written(init));
      }
    }
  }

  lemma {:induction false} NothingLost(tries: seq<Attempt>)
    requires Lost(tries) == []
    ensures Written(tries) == Batches(tries) && FailedCleanly(tries)
    decreases |tries|
  {
    if tries != [] {
      NothingLost(tries[..|tries| - 1]);
    }
  }

  lemma {:induction false} TriedKeepsShape(g: Graph, tries: seq<Attempt>)
    requires Dominated(g) && NoDangling(g)
    ensures Dominated(Tried(g, tries)) && NoDangling(Tried(g, tries))
    decreases |tries|
  {
    if tries != [] {
      var init, last := tries[..|tries| - 1], tries[|tries| - 1];
      TriedKeepsShape(g, init);
      PartlyKeepsShape(Tried(g, init), last.batch, last.queries);
    }
  }

  lemma {:induction false} TriedFollowsLookup(asn: string -> Option<AsInfo>, g: Graph, tries: seq<Attempt>)
    requires FollowsLookup(asn, g) && forall b :: b in Batches(tries) ==> IsLookedUp(asn, b)
    ensures FollowsLookup(asn, Tried(g, tries))
    decreases |tries|
  {
    if tries != [] {
      var init, last := tries[..|tries| - 1], tries[|tries| - 1];
      TriedFollowsLookup(asn, g, init);
      PartlyFollowsLookup(asn, Tried(g, init), last.batch, last.queries);
    }
  }

  /** What a writer puts into an empty graph leaves nothing dangling. */
  lemma TriedIsJoined(tries: seq<Attempt>)
    ensures NoDangling(Tried(EMPTY_GRAPH, tries))
  {
    TriedKeepsShape(EMPTY_GRAPH, tries);
  }

  /** Whatever failed, the graph stays well formed and follows the lookup. */
  lemma AttemptsKeep(asn: string -> Option<AsInfo>, g: Graph, tries: seq<Attempt>, pending: Batch, rs: seq<Record>)
    requires Joined(Batches(tries)).Plus(pending) == AllOps(asn, rs)
    ensures Dominated(g) && NoDangling(g) ==> Dominated(Tried(g, tries)) && NoDangling(Tried(g, tries))
    ensures FollowsLookup(asn, g) ==> FollowsLookup(asn, Tried(g, tries))
  {
    if Dominated(g) && NoDangling(g) {
      TriedKeepsShape(g, tries);
    }
    if FollowsLookup(asn, g) {
      AllOpsAreLookedUp(asn, rs);
      JoinedAreLookedUp(asn, Batches(tries), pending);
      TriedFollowsLookup(asn, g, tries);
    }
  }

  /** What is left when the failures took no effect, and when there were none. */
  lemma AttemptsSucceeded(asn: string -> Option<AsInfo>, g: Graph, tries: seq<Attempt>, pending: Batch,
                          rs: seq<Record>)
    requires AreSound(tries) && Joined(Batches(tries)).Plus(pending) == AllOps(asn, rs)
    ensures FailedCleanly(tries) ==> Tried(g, tries) == FlushedAll(g, Written(tries))
    ensures Lost(tries) == [] ==>
      && Joined(Written(tries)).Plus(pending) == AllOps(asn, rs)
      && Tried(g, tries) == FlushedAll(g, Written(tries))
      && CoreOf(Flushed(Tried(g, tries), pending)) == CoreOf(ApplyEach(asn, g, rs))
      && (pending == EMPTY_BATCH ==> CoreOf(Tried(g, tries)) == CoreOf(ApplyEach(asn, g, rs)))
  {
    if Lost(tries) == [] {
      NothingLost(tries);
      FinishedCore(asn, g, Batches(tries), pending, rs);
    }
    if FailedCleanly(tries) {
      CleanFailuresDoNothing(g, tries);
    }
  }

  /** What the batches flushed and the one pending mean for the graph. */
  lemma Finished(asn: string -> Option<AsInfo>, g: Graph, done: seq<Batch>, pending: Batch, rs: seq<Record>)
    requires Joined(done).Plus(pending) == AllOps(asn, rs)
    ensures var h := FlushedAll(g, done);
      && CoreOf(Flushed(h, pending)) == CoreOf(ApplyEach(asn, g, rs))
      && (pending == EMPTY_BATCH ==> CoreOf(h) == CoreOf(ApplyEach(asn, g, rs)))
    ensures Dominated(g) && NoDangling(g) ==> Dominated(FlushedAll(g, done)) && NoDangling(FlushedAll(g, done))
    ensures FollowsLookup(asn, g) ==> FollowsLookup(asn, FlushedAll(g, done))
  {
    FinishedCore(asn, g, done, pending, rs);
    if Dominated(g) && NoDangling(g) {
      FlushesKeepShape(g, done);
    }
    if FollowsLookup(asn, g) {
      AllOpsAreLookedUp(asn, rs);
      JoinedAreLookedUp(asn, done, pending);
      FlushesFollowLookup(asn, g, done);
    }
  }

  lemma FinishedCore(asn: string -> Option<AsInfo>, g: Graph, done: seq<Batch>, pending: Batch, rs: seq<Record>)
    requires Joined(done).Plus(pending) == AllOps(asn, rs)
    ensures var h := FlushedAll(g, done);
      && CoreOf(Flushed(h, pending)) == CoreOf(ApplyEach(asn, g, rs))
      && (pending == EMPTY_BATCH ==> CoreOf(h) == CoreOf(ApplyEach(asn, g, rs)))
  {
    ApplyEachIsOneFlush(asn, g, rs);
    FlushesJoin(g, done);
    FlushActsOnCore(FlushedAll(g, done), pending);
    FlushesMerge(CoreOf(g), Joined(done), pending);
    NothingToFlush(CoreOf(FlushedAll(g, done)));
  }

  /** A query with no rows changes nothing. */
  lemma NoRows(g: Graph)
    ensures UpsertNextHops(g, []) == UpsertInAS(g, []) == UpsertTransits(g, []) == g
    ensures UpsertLocated(g, []) == UpsertTargets(g, []) == UpsertPings(g, []) == g
  {
  }

  lemma FlushNothing(g: Graph)
    ensures Flushed(g, EMPTY_BATCH) == g
  {
    NoRows(g);
  }

  method HopRows(ops: seq<NextHopOp>) returns (inAS: seq<InASOp>)
    ensures inAS == FlatMap(HopInAS, ops)
  {
    inAS := [];
    for i := 0 to |ops|
      invariant inAS == FlatMap(HopInAS, ops[..i])
    {
      var op := ops[i];
      FlatMapNext(HopInAS, ops, i);
      Assoc(inAS, InASRow(op.from, op.a), InASRow(op.to, op.b));
      inAS := AppendInAS(inAS, op.from, op.a);
      inAS := AppendInAS(inAS, op.to, op.b);
    }
    WholePrefix(ops);
  }

  method ProbeRows(ops: seq<ProbeOp>) returns (located: seq<LocatedOp>, targets: seq<TargetOp>, inAS: seq<InASOp>)
    ensures located == FlatMap(ProbeLocated, ops) && targets == FlatMap(ProbeTarget, ops)
    ensures inAS == FlatMap(ProbeInAS, ops)
  {
    located, targets, inAS := [], [], [];
    for i := 0 to |ops|
      invariant located == FlatMap(ProbeLocated, ops[..i])
      invariant targets == FlatMap(ProbeTarget, ops[..i])
      invariant inAS == FlatMap(ProbeInAS, ops[..i])
    {
      var op := ops[i];
      FlatMapNext(ProbeLocated, ops, i);
      FlatMapNext(ProbeTarget, ops, i);
      FlatMapNext(ProbeInAS, ops, i);
      NothingRight(located);
      NothingRight(targets);
      NothingRight(inAS);
      Assoc(inAS, if op.fromIP != "" then InASRow(op.fromIP, op.fromAS) else [],
            if op.dst != "" then InASRow(op.dst, op.dstAS) else []);
      if op.fromIP != "" {
        located := located + [LocatedOp(op.prb, op.fromIP, op.ts, op.af, op.fromAS)];
        inAS := AppendInAS(inAS, op.fromIP, op.fromAS);
      }
      NothingRight(inAS);
      if op.dst != "" {
        targets := targets + [TargetOp(op.prb, op.dst, op.msm, op.ts, op.af)];
        inAS := AppendInAS(inAS, op.dst, op.dstAS);
      }
    }
    WholePrefix(ops);
  }

  method PingRows(ops: seq<PingOp>) returns (located: seq<LocatedOp>, inAS: seq<InASOp>)
    ensures located == FlatMap(PingLocated, ops) && inAS == FlatMap(PingInAS, ops)
  {
    located, inAS := [], [];
    for i := 0 to |ops|
      invariant located == FlatMap(PingLocated, ops[..i])
      invariant inAS == FlatMap(PingInAS, ops[..i])
    {
      var op := ops[i];
      FlatMapNext(PingLocated, ops, i);
      FlatMapNext(PingInAS, ops, i);
      NothingRight(located);
      Assoc(inAS, InASRow(op.dst, op.dstAS), if op.from == "" then [] else InASRow(op.from, op.fromAS));
      inAS := AppendInAS(inAS, op.dst, op.dstAS);
      NothingRight(inAS);
      if op.from == "" {
        continue;
      }
      located := located + [LocatedOp(op.prb, op.from, op.ts, op.af, op.fromAS)];
      inAS := AppendInAS(inAS, op.from, op.fromAS);
    }
    WholePrefix(ops);
  }

  /** The operations of one more record join the pending ones. */
  lemma OneMoreRecord(asn: string -> Option<AsInfo>, done: Batch, pending: Batch, rs: seq<Record>, r: Record)
    requires done.Plus(pending) == AllOps(asn, rs)
    ensures var grown := match RecordOps(asn, r) case None => pending case Some(ops) => pending.Plus(ops);
      done.Plus(grown) == AllOps(asn, rs + [r])
  {
    AllOpsNext(asn, rs, r);
    match RecordOps(asn, r)
    case None =>
    case Some(ops) => PlusAssoc(done, pending, ops);
  }

  lemma RejectedNext(asn: string -> Option<AsInfo>, rs: seq<Record>, r: Record)
    ensures Rejected(asn, rs + [r]) == Rejected(asn, rs) + if RecordOps(asn, r).None? then 1 else 0
  {
    assert (rs + [r])[..|rs|] == rs;
  }

  method AppendInAS(dst: seq<InASOp>, addr: string, info: AsInfo) returns (r: seq<InASOp>)
    ensures r == dst + InASRow(addr, info)
  {
    if addr == "" || info.number <= 0 {
      return dst;
    }
    r := dst + [InASOp(addr, info.number, info.org)];
  }

  /** How many records the writer rejects. */
  function Rejected(asn: string -> Option<AsInfo>, rs: seq<Record>): nat
    decreases |rs|
  {
    if rs == [] then 0 else Rejected(asn, rs[..|rs| - 1]) + if RecordOps(asn, rs[|rs| - 1]).None? then 1 else 0
  }

  // ---- every address belongs to the AS the lookup gives ------------------------------------------

  /** IN_AS relationships join an address with the one AS the database gives for it. */
  ghost predicate FollowsLookup(asn: string -> Option<AsInfo>, g: Graph) {
    forall k :: k in g.inAS ==> k.1 == LookupASN(asn, k.0).number
  }

  /** The operations carry what the database gives for their addresses. */
  ghost predicate IsLookedUp(asn: string -> Option<AsInfo>, b: Batch) {
    && (forall op :: op in b.nextHops ==> op.a == LookupASN(asn, op.from) && op.b == LookupASN(asn, op.to))
    && (forall op :: op in b.probes ==> op.fromAS == LookupASN(asn, op.fromIP) && op.dstAS == LookupASN(asn, op.dst))
    && (forall op :: op in b.pings ==> op.fromAS == LookupASN(asn, op.from) && op.dstAS == LookupASN(asn, op.dst))
  }

  lemma {:induction false} HopsAreLookedUp(asn: string -> Option<AsInfo>, r: Record, hops: seq<RoutedHop>)
    requires forall h :: h in hops ==> h.info == LookupASN(asn, h.addr)
    ensures forall op :: op in NextHopOps(r, hops) ==> op.a == LookupASN(asn, op.from) && op.b == LookupASN(asn, op.to)
    decreases |hops|
  {
    if |hops| >= 2 {
      HopsAreLookedUp(asn, r, hops[..|hops| - 1]);
      assert hops[|hops| - 2] in hops && hops[|hops| - 1] in hops;
    }
  }

  lemma RecordIsLookedUp(asn: string -> Option<AsInfo>, r: Record)
    ensures RecordOps(asn, r).Some? ==> IsLookedUp(asn, RecordOps(asn, r).value)
  {
    if r.kind == "traceroute" && r.trace.Some? {
      HopsAreLookedUp(asn, r, Route(asn, ResponsiveHops(r.trace.value)));
    }
  }

  lemma {:induction false} AllOpsAreLookedUp(asn: string -> Option<AsInfo>, rs: seq<Record>)
    ensures IsLookedUp(asn, AllOps(asn, rs))
    decreases |rs|
  {
    if rs != [] {
      AllOpsAreLookedUp(asn, rs[..|rs| - 1]);
      RecordIsLookedUp(asn, rs[|rs| - 1]);
    }
  }

  lemma {:induction false} JoinedAreLookedUp(asn: string -> Option<AsInfo>, bs: seq<Batch>, rest: Batch)
    requires IsLookedUp(asn, Joined(bs).Plus(rest))
    ensures forall b :: b in bs ==> IsLookedUp(asn, b)
    decreases |bs|
  {
    if bs != [] {
      var init, last := bs[..|bs| - 1], bs[|bs| - 1];
      PartsAreLookedUp(asn, Joined(bs), rest);
      PartsAreLookedUp(asn, Joined(init), last);
      JoinedAreLookedUp(asn, init, last);
    }
  }

  lemma PartsAreLookedUp(asn: string -> Option<AsInfo>, a: Batch, b: Batch)
    requires IsLookedUp(asn, a.Plus(b))
    ensures IsLookedUp(asn, a) && IsLookedUp(asn, b)
  {
    var c := a.Plus(b);
    assert forall op :: op in a.nextHops || op in b.nextHops ==> op in c.nextHops;
    assert forall op :: op in a.probes || op in b.probes ==> op in c.probes;
    assert forall op :: op in a.pings || op in b.pings ==> op in c.pings;
  }

  ghost predicate RowsFollow(asn: string -> Option<AsInfo>, rows: seq<InASOp>) {
    forall row :: row in rows ==> row.asn == LookupASN(asn, row.addr).number
  }

  lemma {:induction false} FlatRowsFollow<A>(asn: string -> Option<AsInfo>, f: A -> seq<InASOp>, ops: seq<A>)
    requires forall op :: op in ops ==> RowsFollow(asn, f(op))
    ensures RowsFollow(asn, FlatMap(f, ops))
    decreases |ops|
  {
    if ops != [] {
      assert ops[|ops| - 1] in ops;
      FlatRowsFollow(asn, f, ops[..|ops| - 1]);
    }
  }

  lemma UpsertFollows(asn: string -> Option<AsInfo>, g: Graph, rows: seq<InASOp>)
    requires FollowsLookup(asn, g) && RowsFollow(asn, rows)
    ensures FollowsLookup(asn, UpsertInAS(g, rows))
  {
    forall k | k in UpsertInAS(g, rows).inAS
      ensures k.1 == LookupASN(asn, k.0).number
    {
      InASPairs(g.inAS, rows, k);
    }
  }

  /** A query that writes IN_AS relationships writes looked-up ones. */
  ghost predicate QueryFollows(asn: string -> Option<AsInfo>, q: Query) {
    q.InAS? ==> RowsFollow(asn, q.rows)
  }

  lemma ExecuteFollows(asn: string -> Option<AsInfo>, g: Graph, q: Query)
    requires FollowsLookup(asn, g) && QueryFollows(asn, q)
    ensures FollowsLookup(asn, Execute(g, q))
  {
    if q.InAS? {
      UpsertFollows(asn, g, q.rows);
    }
  }

  lemma {:induction false} QueriesFollow(asn: string -> Option<AsInfo>, g: Graph, qs: seq<Query>)
    requires FollowsLookup(asn, g) && forall q :: q in qs ==> QueryFollows(asn, q)
    ensures FollowsLookup(asn, ExecuteAll(g, qs))
    decreases |qs|
  {
    if qs != [] {
      assert qs[|qs| - 1] in qs;
      QueriesFollow(asn, g, qs[..|qs| - 1]);
      ExecuteFollows(asn, ExecuteAll(g, qs[..|qs| - 1]), qs[|qs| - 1]);
    }
  }

  /** The queries of a looked-up batch write looked-up relationships. */
  lemma FlushQueriesFollow(asn: string -> Option<AsInfo>, b: Batch)
    requires IsLookedUp(asn, b)
    ensures forall q :: q in FlushQueries(b) ==> QueryFollows(asn, q)
  {
    TraceQueriesFollow(asn, b);
    ProbeQueriesFollow(asn, b);
    PingQueriesFollow(asn, b);
  }

  lemma TraceQueriesFollow(asn: string -> Option<AsInfo>, b: Batch)
    requires IsLookedUp(asn, b)
    ensures forall q :: q in TraceQueries(b) ==> QueryFollows(asn, q)
  {
    FlatRowsFollow(asn, HopInAS, b.nextHops);
  }

  lemma ProbeQueriesFollow(asn: string -> Option<AsInfo>, b: Batch)
    requires IsLookedUp(asn, b)
    ensures forall q :: q in ProbeQueries(b) ==> QueryFollows(asn, q)
  {
    FlatRowsFollow(asn, ProbeInAS, b.probes);
  }

  lemma PingQueriesFollow(asn: string -> Option<AsInfo>, b: Batch)
    requires IsLookedUp(asn, b)
    ensures forall q :: q in PingQueries(b) ==> QueryFollows(asn, q)
  {
    FlatRowsFollow(asn, PingInAS, b.pings);
  }

  lemma PartlyFollowsLookup(asn: string -> Option<AsInfo>, g: Graph, b: Batch, n: nat)
    requires FollowsLookup(asn, g) && IsLookedUp(asn, b)
    ensures FollowsLookup(asn, Partly(g, b, n))
  {
    FlushQueriesFollow(asn, b);
    QueriesFollow(asn, g, FlushQueries(b)[..Min(n, |FlushQueries(b)|)]);
  }

  lemma FlushFollowsLookup(asn: string -> Option<AsInfo>, g: Graph, b: Batch)
    requires FollowsLookup(asn, g) && IsLookedUp(asn, b)
    ensures FollowsLookup(asn, Flushed(g, b))
  {
    PartlyAll(g, b);
    PartlyFollowsLookup(asn, g, b, FLUSH_LENGTH);
  }

  lemma {:induction false} FlushesFollowLookup(asn: string -> Option<AsInfo>, g: Graph, bs: seq<Batch>)
    requires FollowsLookup(asn, g) && forall b :: b in bs ==> IsLookedUp(asn, b)
    ensures FollowsLookup(asn, FlushedAll(g, bs))
    decreases |bs|
  {
    if bs != [] {
      assert bs[|bs| - 1] in bs;
      FlushesFollowLookup(asn, g, bs[..|bs| - 1]);
      FlushFollowsLookup(asn, FlushedAll(g, bs[..|bs| - 1]), bs[|bs| - 1]);
    }
  }

  // ---- a traceroute becomes a walk --------------------------------------------------------------

  /** The addresses of the hops with immediate repeats dropped. */
  function Compressed(hops: seq<RoutedHop>): seq<string>
    decreases |hops|
  {
    if |hops| == 0 then []
    else if |hops| == 1 then [hops[0].addr]
    else
      var front := Compressed(hops[..|hops| - 1]);
      if hops[|hops| - 2].addr == hops[|hops| - 1].addr then front else front + [hops[|hops| - 1].addr]
  }

  /** The operations follow the compressed hops step by step, from the first hop to the last. */
  ghost predicate FollowsHops(hops: seq<RoutedHop>, ops: seq<NextHopOp>) {
    var c := Compressed(hops);
    && |c| == |ops| + 1
    && c[0] == hops[0].addr && c[|ops|] == hops[|hops| - 1].addr
    && forall k :: 0 <= k < |ops| ==> ops[k].from == c[k] && ops[k].to == c[k + 1] && ops[k].from != ops[k].to
  }

  lemma {:induction false} TraceIsWalk(r: Record, hops: seq<RoutedHop>)
    requires |hops| > 0 && forall i :: 0 <= i < |hops| ==> hops[i].addr != ""
    ensures FollowsHops(hops, NextHopOps(r, hops))
    decreases |hops|
  {
    var n := |hops| - 1;
    if n > 0 {
      TraceIsWalk(r, hops[..n]);
    }
  }

  lemma {:induction false} NamedIsTallied<A, K>(key: A -> K, ops: seq<A>, i: nat)
    requires i < |ops|
    ensures Tally(key, ops, key(ops[i])) > 0
    decreases |ops|
  {
    if i < |ops| - 1 {
      NamedIsTallied(key, ops[..|ops| - 1], i);
    }
  }

  lemma WrittenHopIsEdge(m: map<Edge, HopEdge>, all: seq<NextHopOp>, op: NextHopOp)
    requires op in all
    ensures HopKey(op) in Fold(SeeHop, m, all)
  {
    var i :| 0 <= i < |all| && all[i] == op;
    NamedIsTallied(HopKey, all, i);
    HopsAreCounted(m, all, HopKey(op));
  }

  /** After the operations are written, among others, the last hop can be reached from the first. */
  lemma WrittenTraceIsReachable(m: map<Edge, HopEdge>, hops: seq<RoutedHop>, ops: seq<NextHopOp>,
                                all: seq<NextHopOp>)
    requires |hops| > 0 && FollowsHops(hops, ops) && forall op :: op in ops ==> op in all
    ensures Reaches(Fold(SeeHop, m, all).Keys, hops[0].addr, hops[|hops| - 1].addr, |ops|)
  {
    var c, edges := Compressed(hops), Fold(SeeHop, m, all).Keys;
    forall k | 0 <= k < |c| - 1
      ensures (c[k], c[k + 1]) in edges
    {
      assert ops[k] in all;
      WrittenHopIsEdge(m, all, ops[k]);
      assert HopKey(ops[k]) == (c[k], c[k + 1]);
    }
    assert IsWalk(edges, c);
  }

  lemma MoreEdges(small: set<Edge>, large: set<Edge>, a: string, b: string, n: nat)
    requires small <= large && Reaches(small, a, b, n)
    ensures Reaches(large, a, b, n)
  {
    var p :| IsWalk(small, p) && |p| == n + 1 && p[0] == a && p[n] == b;
    assert IsWalk(large, p);
  }

  lemma FlushKeepsHops(g: Graph, b: Batch)
    ensures g.nextHop.Keys <= Flushed(g, b).nextHop.Keys
  {
    FlushActsOnCore(g, b);
    forall k | k in g.nextHop
      ensures k in Flushed(g, b).nextHop
    {
      HopsAreCounted(g.nextHop, b.nextHops, k);
    }
  }

  lemma ApplyKeepsHops(asn: string -> Option<AsInfo>, g: Graph, r: Record)
    ensures g.nextHop.Keys <= Apply(asn, g, r).nextHop.Keys
  {
    if RecordOps(asn, r).Some? {
      FlushKeepsHops(g, RecordOps(asn, r).value);
    }
  }

  /** Writing more records removes no hop. */
  lemma {:induction false} HopsOnlyGrow(asn: string -> Option<AsInfo>, g: Graph, rs: seq<Record>, more: seq<Record>)
    ensures ApplyEach(asn, g, rs).nextHop.Keys <= ApplyEach(asn, g, rs + more).nextHop.Keys
    decreases |more|
  {
    if more == [] {
      NothingRight(rs);
    } else {
      var init, last := more[..|more| - 1], more[|more| - 1];
      HopsOnlyGrow(asn, g, rs, init);
      ApplyKeepsHops(asn, ApplyEach(asn, g, rs + init), last);
      SplitLast(more);
      Assoc(rs, init, [last]);
      ApplyNext(asn, g, rs + init, last);
    }
  }

  lemma ApplyNext(asn: string -> Option<AsInfo>, g: Graph, rs: seq<Record>, r: Record)
    ensures ApplyEach(asn, g, rs + [r]) == Apply(asn, ApplyEach(asn, g, rs), r)
  {
    assert (rs + [r])[..|rs|] == rs;
  }

  lemma MoreEdgesReach(small: set<Edge>, large: set<Edge>, a: string, b: string)
    requires small <= large && CanReach(small, a, b)
    ensures CanReach(large, a, b)
  {
    var n: nat :| Reaches(small, a, b, n);
    MoreEdges(small, large, a, b, n);
  }

  lemma WrittenRecordIsReachable(asn: string -> Option<AsInfo>, g: Graph, r: Record)
    requires r.kind == "traceroute" && r.trace.Some? && |ResponsiveHops(r.trace.value)| > 0
    ensures var hops := ResponsiveHops(r.trace.value);
      CanReach(Apply(asn, g, r).nextHop.Keys, hops[0].addr, hops[|hops| - 1].addr)
  {
    var ops := RecordOps(asn, r).value;
    var hops := Route(asn, ResponsiveHops(r.trace.value));
    ResponsiveHopsHaveAddrs(r.trace.value);
    TraceIsWalk(r, hops);
    FlushActsOnCore(g, ops);
    WrittenTraceIsReachable(g.nextHop, hops, ops.nextHops, ops.nextHops);
  }

  lemma ReachStays(asn: string -> Option<AsInfo>, g: Graph, rs: seq<Record>, more: seq<Record>,
                   from: string, dst: string)
    requires CanReach(ApplyEach(asn, g, rs).nextHop.Keys, from, dst)
    ensures CanReach(ApplyEach(asn, g, rs + more).nextHop.Keys, from, dst)
  {
    HopsOnlyGrow(asn, g, rs, more);
    MoreEdgesReach(ApplyEach(asn, g, rs).nextHop.Keys, ApplyEach(asn, g, rs + more).nextHop.Keys, from, dst);
  }

  /** Every traceroute that was ever written shows as a walk from its first hop to its last. */
  lemma TracesStayReachable(asn: string -> Option<AsInfo>, g: Graph, rs: seq<Record>, i: nat)
    requires i < |rs| && rs[i].kind == "traceroute" && rs[i].trace.Some?
    requires |ResponsiveHops(rs[i].trace.value)| > 0
    ensures var hops := ResponsiveHops(rs[i].trace.value);
      CanReach(ApplyEach(asn, g, rs).nextHop.Keys, hops[0].addr, hops[|hops| - 1].addr)
  {
    var hops, upTo := ResponsiveHops(rs[i].trace.value), rs[..i] + [rs[i]];
    WrittenRecordIsReachable(asn, ApplyEach(asn, g, rs[..i]), rs[i]);
    ApplyNext(asn, g, rs[..i], rs[i]);
    SplitAround(rs, i);
    ReachStays(asn, g, upTo, rs[i + 1..], hops[0].addr, hops[|hops| - 1].addr);
  }

  // ---- traceroutes and failed flushes ------------------------------------------------------------

  /** The NEXT_HOP operations of the flushes whose first query took effect. */
  function HopsWritten(tries: seq<Attempt>): seq<NextHopOp>
    decreases |tries|
  {
    if tries == [] then []
    else
      HopsWritten(tries[..|tries| - 1])
      + if tries[|tries| - 1].queries > 0 then tries[|tries| - 1].batch.nextHops else []
  }

  lemma {:induction false} OtherQueriesKeepHops(g: Graph, qs: seq<Query>)
    requires forall q :: q in qs ==> !q.NextHops?
    ensures ExecuteAll(g, qs).nextHop == g.nextHop
    decreases |qs|
  {
    if qs != [] {
      assert qs[|qs| - 1] in qs;
      OtherQueriesKeepHops(g, qs[..|qs| - 1]);
      OtherQueryKeepsHops(ExecuteAll(g, qs[..|qs| - 1]), qs[|qs| - 1]);
    }
  }

  lemma OtherQueryKeepsHops(g: Graph, q: Query)
    requires !q.NextHops?
    ensures Execute(g, q).nextHop == g.nextHop
  {
  }

  lemma OnlyFirstWritesHops(b: Batch, n: nat)
    requires 0 < n <= FLUSH_LENGTH
    ensures FlushQueries(b)[..n] == [NextHops(b.nextHops)] + FlushQueries(b)[1..n]
    ensures forall q :: q in FlushQueries(b)[1..n] ==> !q.NextHops?
  {
    var rest := FlushQueries(b)[1..];
    assert rest == TraceQueries(b)[1..] + ProbeQueries(b) + PingQueries(b);
    assert forall q :: q in FlushQueries(b)[1..n] ==> q in rest;
  }

  lemma PartlyHops(g: Graph, b: Batch, n: nat)
    ensures Partly(g, b, n).nextHop == if n > 0 then Fold(SeeHop, g.nextHop, b.nextHops) else g.nextHop
  {
    if n > 0 {
      var m := Min(n, FLUSH_LENGTH);
      var first, rest := NextHops(b.nextHops), FlushQueries(b)[1..m];
      OnlyFirstWritesHops(b, m);
      FoldAppend(Execute, g, [first], rest);
      FoldOne(Execute, g, first);
      OtherQueriesKeepHops(Execute(g, first), rest);
    }
  }

  /** Whatever failed, the NEXT_HOP edges are those of the flushes whose first query took effect. */
  lemma {:induction false} TriedHops(g: Graph, tries: seq<Attempt>)
    ensures Tried(g, tries).nextHop == Fold(SeeHop, g.nextHop, HopsWritten(tries))
    decreases |tries|
  {
    if tries != [] {
      var init, last := tries[..|tries| - 1], tries[|tries| - 1];
      TriedHops(g, init);
      PartlyHops(Tried(g, init), last.batch, last.queries);
      FoldAppend(SeeHop, g.nextHop, HopsWritten(init), last.batch.nextHops);
      NothingRight(HopsWritten(init));
    }
  }

  /** A traceroute shows as a walk once its own operations took effect, whichever other queries failed. */
  lemma TriedTraceIsReachable(asn: string -> Option<AsInfo>, g: Graph, tries: seq<Attempt>, r: Record)
    requires r.kind == "traceroute" && r.trace.Some? && |ResponsiveHops(r.trace.value)| > 0
    requires forall op :: op in RecordOps(asn, r).value.nextHops ==> op in HopsWritten(tries)
    ensures var hops := ResponsiveHops(r.trace.value);
      CanReach(Tried(g, tries).nextHop.Keys, hops[0].addr, hops[|hops| - 1].addr)
  {
    var ops := RecordOps(asn, r).value;
    var hops := Route(asn, ResponsiveHops(r.trace.value));
    ResponsiveHopsHaveAddrs(r.trace.value);
    TraceIsWalk(r, hops);
    TriedHops(g, tries);
    WrittenTraceIsReachable(g.nextHop, hops, ops.nextHops, HopsWritten(tries));
  }
}
