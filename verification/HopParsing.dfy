/** The responsive hops of a traceroute and the loss of a ping, after JSON decoding. */
module HopParsing {
  import opened Sequences
  import opened Wrappers

  /** One reply to a traceroute packet; `x` is "*" on a timeout. */
  datatype Reply = Reply(from: string, rtt: real, x: string)

  datatype Hop = Hop(addr: string, rtt: real)

  predicate IsResponsive(r: Reply) {
    r.from != "" && r.x != "*"
  }

  /** The address of the first responsive reply, or "". */
  function FirstAddr(replies: seq<Reply>): string
    decreases |replies|
  {
    if replies == [] then ""
    else
      var earlier := FirstAddr(replies[..|replies| - 1]);
      var last := replies[|replies| - 1];
      if earlier != "" then earlier else if IsResponsive(last) then last.from else ""
  }

  /** The round-trip times of the responsive replies from `addr`. */
  function RttsFrom(replies: seq<Reply>, addr: string): seq<real> {
    FlatMap((r: Reply) => if IsResponsive(r) && r.from == addr then [r.rtt] else [], replies)
  }

  function Sum(xs: seq<real>): real
    decreases |xs|
  {
    if xs == [] then 0.0 else Sum(xs[..|xs| - 1]) + xs[|xs| - 1]
  }

  function Mean(xs: seq<real>): real
    requires xs != []
  {
    Sum(xs) / |xs| as real
  }

  /** The hop a list of replies stands for. */
  function BestReply(replies: seq<Reply>): Option<Hop> {
    var addr := FirstAddr(replies);
    var rtts := RttsFrom(replies, addr);
    if addr == "" || |rtts| == 0 then None else Some(Hop(addr, Mean(rtts)))
  }

  function HopOf(replies: seq<Reply>): seq<Hop> {
    match BestReply(replies) case Some(h) => [h] case None => []
  }

  function ResponsiveHops(trace: seq<seq<Reply>>): seq<Hop> {
    FlatMap(HopOf, trace)
  }

  lemma {:induction false} FirstAddrIsFirst(replies: seq<Reply>)
    ensures FirstAddr(replies) == "" <==> forall i :: 0 <= i < |replies| ==> !IsResponsive(replies[i])
    ensures FirstAddr(replies) != "" ==>
      exists i :: 0 <= i < |replies| && IsResponsive(replies[i]) && replies[i].from == FirstAddr(replies)
                  && forall j :: 0 <= j < i ==> !IsResponsive(replies[j])
    decreases |replies|
  {
    if replies != [] {
      var n := |replies| - 1;
      var front := replies[..n];
      FirstAddrIsFirst(front);
      if FirstAddr(front) != "" {
        var i :| 0 <= i < |front| && IsResponsive(front[i]) && front[i].from == FirstAddr(front)
                 && forall j :: 0 <= j < i ==> !IsResponsive(front[j]);
        assert IsResponsive(replies[i]) && forall j :: 0 <= j < i ==> replies[j] == front[j];
      } else {
        assert forall j :: 0 <= j < n ==> replies[j] == front[j];
      }
    }
  }

  /** Every time counted is that of a responsive reply from the address. */
  lemma {:induction false} RttHasReply(replies: seq<Reply>, addr: string, x: real) returns (i: nat)
    requires x in RttsFrom(replies, addr)
    ensures i < |replies| && IsResponsive(replies[i]) && replies[i].from == addr && replies[i].rtt == x
    decreases |replies|
  {
    var n := |replies| - 1;
    if x in RttsFrom(replies[..n], addr) {
      i := RttHasReply(replies[..n], addr, x);
    } else {
      i := n;
    }
  }

  /** Every responsive reply from the address is counted. */
  lemma {:induction false} ReplyHasRtt(replies: seq<Reply>, addr: string, i: nat)
    requires i < |replies| && IsResponsive(replies[i]) && replies[i].from == addr
    ensures replies[i].rtt in RttsFrom(replies, addr)
    decreases |replies|
  {
    var n := |replies| - 1;
    if i < n {
      ReplyHasRtt(replies[..n], addr, i);
    }
  }

  /** A hop is reported exactly when some reply is responsive, and it is the first responsive one's address. */
  lemma BestReplyIsFirstResponsive(replies: seq<Reply>)
    ensures BestReply(replies).Some? <==> exists i :: 0 <= i < |replies| && replies[i].from != "" && replies[i].x != "*"
    ensures BestReply(replies).Some? ==>
      && BestReply(replies).value.addr != ""
      && exists i :: 0 <= i < |replies| && IsResponsive(replies[i]) && replies[i].from == BestReply(replies).value.addr
                     && forall j :: 0 <= j < i ==> replies[j].from == "" || replies[j].x == "*"
  {
    FirstAddrIsFirst(replies);
    var addr := FirstAddr(replies);
    if addr != "" {
      var i :| 0 <= i < |replies| && IsResponsive(replies[i]) && replies[i].from == addr;
      ReplyHasRtt(replies, addr, i);
    }
  }

  /** The responsive replies of the reported address, by position. */
  function RepliesOf(replies: seq<Reply>, addr: string): set<nat> {
    set i | 0 <= i < |replies| && replies[i].from == addr && replies[i].x != "*"
  }

  lemma {:induction false} AsManyRtts(replies: seq<Reply>, addr: string)
    requires addr != ""
    ensures |RttsFrom(replies, addr)| == |RepliesOf(replies, addr)|
    decreases |replies|
  {
    if replies != [] {
      var n := |replies| - 1;
      AsManyRtts(replies[..n], addr);
      if IsResponsive(replies[n]) && replies[n].from == addr {
        assert RepliesOf(replies, addr) == RepliesOf(replies[..n], addr) + {n};
      } else {
        assert RepliesOf(replies, addr) == RepliesOf(replies[..n], addr);
      }
    } else {
      assert RepliesOf(replies, addr) == {};
    }
  }

  /**
    * How one more reply changes the hop. A timeout changes nothing, and neither does another address; the first
    * responsive reply is the hop; one more of the same address enters the mean with the weight of one.
    */
  lemma BestReplyNext(replies: seq<Reply>, r: Reply)
    ensures r.from == "" || r.x == "*" ==> BestReply(replies + [r]) == BestReply(replies)
    ensures r.from != "" && r.x != "*" ==> BestReply(replies + [r]).Some?
    ensures r.from != "" && r.x != "*" ==>
      match BestReply(replies)
      case None => BestReply(replies + [r]) == Some(Hop(r.from, r.rtt))
      case Some(h) =>
        if r.from != h.addr then BestReply(replies + [r]) == Some(h)
        else
          var n := |RepliesOf(replies, h.addr)|;
          && n > 0 && BestReply(replies + [r]).value.addr == h.addr
          && BestReply(replies + [r]).value.rtt * (n + 1) as real == h.rtt * n as real + r.rtt
  {
    if IsResponsive(r) && BestReply(replies).None? {
      FirstReplyIsHop(replies, r);
    } else if IsResponsive(r) && r.from == BestReply(replies).value.addr {
      SameAddressCounts(replies, r);
    } else {
      OtherReplyIsIgnored(replies, r);
    }
  }

  lemma OtherReplyIsIgnored(replies: seq<Reply>, r: Reply)
    requires IsResponsive(r) ==> BestReply(replies).Some? && r.from != BestReply(replies).value.addr
    ensures BestReply(replies + [r]) == BestReply(replies)
  {
    RttsNext(replies, r, FirstAddr(replies));
  }

  lemma SameAddressCounts(replies: seq<Reply>, r: Reply)
    requires IsResponsive(r) && BestReply(replies).Some? && r.from == BestReply(replies).value.addr
    ensures var n := |RepliesOf(replies, r.from)|;
      && n > 0 && BestReply(replies + [r]).Some? && BestReply(replies + [r]).value.addr == r.from
      && BestReply(replies + [r]).value.rtt * (n + 1) as real == BestReply(replies).value.rtt * n as real + r.rtt
  {
    var xs := SameAddressMeans(replies, r);
    HopGrows(xs, r.rtt, BestReply(replies).value, BestReply(replies + [r]).value, |RepliesOf(replies, r.from)|);
  }

  lemma SameAddressMeans(replies: seq<Reply>, r: Reply) returns (xs: seq<real>)
    requires IsResponsive(r) && BestReply(replies).Some? && r.from == BestReply(replies).value.addr
    ensures |xs| == |RepliesOf(replies, r.from)| > 0
    ensures BestReply(replies) == Some(Hop(r.from, Mean(xs)))
    ensures BestReply(replies + [r]) == Some(Hop(r.from, Mean(xs + [r.rtt])))
  {
    xs := RttsFrom(replies, r.from);
    RttsNext(replies, r, r.from);
    AsManyRtts(replies, r.from);
  }

  lemma HopGrows(xs: seq<real>, x: real, before: Hop, after: Hop, n: nat)
    requires n == |xs| > 0 && before.rtt == Mean(xs) && after.rtt == Mean(xs + [x])
    ensures after.rtt * (n + 1) as real == before.rtt * n as real + x
  {
    MeanGrows(xs, x, xs + [x], n);
  }

  lemma RttsNext(replies: seq<Reply>, r: Reply, addr: string)
    ensures RttsFrom(replies + [r], addr) ==
      if IsResponsive(r) && r.from == addr then RttsFrom(replies, addr) + [r.rtt] else RttsFrom(replies, addr)
    ensures FirstAddr(replies + [r]) ==
      if FirstAddr(replies) != "" then FirstAddr(replies) else if IsResponsive(r) then r.from else ""
  {
    var all := replies + [r];
    assert all[..|replies|] == replies && all[..|replies| + 1] == all;
    StepReply(all, |replies|, addr);
  }

  lemma FirstReplyIsHop(replies: seq<Reply>, r: Reply)
    requires BestReply(replies).None? && IsResponsive(r)
    ensures BestReply(replies + [r]) == Some(Hop(r.from, r.rtt))
  {
    BestReplyIsFirstResponsive(replies);
    FirstAddrIsFirst(replies);
    RttsNext(replies, r, r.from);
    if RttsFrom(replies, r.from) != [] {
      var k := RttHasReply(replies, r.from, RttsFrom(replies, r.from)[0]);
    }
    assert RttsFrom(replies + [r], r.from) == [] + [r.rtt] == [r.rtt];
    assert [r.rtt][..0] == [];
    assert Sum([r.rtt]) == Sum([]) + r.rtt;
    assert Sum([r.rtt]) / 1.0 == r.rtt;
  }

  lemma MeanGrows(xs: seq<real>, x: real, ys: seq<real>, n: nat)
    requires n == |xs| > 0 && ys == xs + [x]
    ensures Mean(ys) * (n + 1) as real == Mean(xs) * n as real + x
  {
    assert ys[..n] == xs;
    assert Sum(ys) == Sum(xs) + x;
    QuotientTimes(Sum(xs), n as real);
    QuotientTimes(Sum(ys), (n + 1) as real);
  }

  lemma QuotientTimes(sum: real, n: real)
    requires n != 0.0
    ensures sum / n * n == sum
  {
  }

  lemma {:induction false} SumBetween(xs: seq<real>, lo: real, hi: real)
    requires forall i :: 0 <= i < |xs| ==> lo <= xs[i] <= hi
    ensures |xs| as real * lo <= Sum(xs) <= |xs| as real * hi
    decreases |xs|
  {
    if xs != [] {
      SumBetween(xs[..|xs| - 1], lo, hi);
      assert |xs| as real == (|xs| - 1) as real + 1.0;
    }
  }

  lemma Cancel(n: real, a: real, b: real)
    requires n > 0.0
    ensures n * a <= n * b <==> a <= b
  {
  }

  lemma DivideBetween(sum: real, n: real, lo: real, hi: real)
    requires n > 0.0 && n * lo <= sum <= n * hi
    ensures lo <= sum / n <= hi
  {
    assert n * (sum / n) == sum;
    Cancel(n, lo, sum / n);
    Cancel(n, sum / n, hi);
  }

  lemma MeanBetween(xs: seq<real>, lo: real, hi: real)
    requires xs != [] && forall i :: 0 <= i < |xs| ==> lo <= xs[i] <= hi
    ensures lo <= Mean(xs) <= hi
  {
    SumBetween(xs, lo, hi);
    DivideBetween(Sum(xs), |xs| as real, lo, hi);
  }

  /** The reported time lies between any bounds on the times of the address it reports. */
  lemma BestReplyAverages(replies: seq<Reply>, lo: real, hi: real)
    requires BestReply(replies).Some?
    requires forall i ::
      0 <= i < |replies| && IsResponsive(replies[i]) && replies[i].from == BestReply(replies).value.addr ==>
        lo <= replies[i].rtt <= hi
    ensures lo <= BestReply(replies).value.rtt <= hi
  {
    var addr := FirstAddr(replies);
    var rtts := RttsFrom(replies, addr);
    forall i | 0 <= i < |rtts|
      ensures lo <= rtts[i] <= hi
    {
      var k := RttHasReply(replies, addr, rtts[i]);
    }
    MeanBetween(rtts, lo, hi);
  }

  /** Pick the first responsive reply and average the times for that address. */
  method HopBestReply(replies: seq<Reply>) returns (addr: string, avgRtt: real, ok: bool)
    ensures ok == BestReply(replies).Some?
    ensures ok ==> BestReply(replies) == Some(Hop(addr, avgRtt))
    ensures !ok ==> addr == "" && avgRtt == 0.0
  {
    addr := "";
    var sum, n := 0.0, 0;
    for i := 0 to |replies|
      invariant addr == FirstAddr(replies[..i])
      invariant addr == "" ==> n == 0 && sum == 0.0
      invariant addr != "" ==> sum == Sum(RttsFrom(replies[..i], addr)) && n == |RttsFrom(replies[..i], addr)|
    {
      var r := replies[i];
      StepReply(replies, i, addr);
      if r.from == "" || r.x == "*" {
        continue;
      }
      if addr == "" {
        addr := r.from;
        StepReply(replies, i, addr);
      }
      if r.from != addr {
        continue;
      }
      sum := sum + r.rtt;
      n := n + 1;
    }
    WholePrefix(replies);
    if addr == "" || n == 0 {
      return "", 0.0, false;
    }
    return addr, sum / n as real, true;
  }

  lemma StepReply(replies: seq<Reply>, i: nat, addr: string)
    requires i < |replies|
    ensures var r := replies[i];
      var before, after := RttsFrom(replies[..i], addr), RttsFrom(replies[..i + 1], addr);
      && (IsResponsive(r) && r.from == addr ==> after == before + [r.rtt] && Sum(after) == Sum(before) + r.rtt)
      && (!(IsResponsive(r) && r.from == addr) ==> after == before)
    ensures FirstAddr(replies[..i + 1]) ==
      (if FirstAddr(replies[..i]) != "" then FirstAddr(replies[..i])
       else if IsResponsive(replies[i]) then replies[i].from else "")
    ensures FirstAddr(replies[..i]) == "" ==> RttsFrom(replies[..i], addr) == []
  {
    var before := RttsFrom(replies[..i], addr);
    assert replies[..i + 1][..i] == replies[..i];
    FirstAddrIsFirst(replies[..i]);
    if before != [] {
      var k := RttHasReply(replies[..i], addr, before[0]);
    }
    assert (before + [replies[i].rtt])[..|before|] == before;
  }

  /** The responsive hops in order; timeouts are skipped. */
  method ExtractResponsiveHops(trace: seq<seq<Reply>>) returns (out: seq<Hop>)
    ensures out == ResponsiveHops(trace)
    ensures forall h :: h in out ==> h.addr != ""
  {
    out := [];
    for i := 0 to |trace|
      invariant out == ResponsiveHops(trace[..i])
      invariant forall h :: h in out ==> h.addr != ""
    {
      assert trace[..i + 1][..i] == trace[..i];
      var addr, rtt, ok := HopBestReply(trace[i]);
      if !ok {
        continue;
      }
      out := out + [Hop(addr, rtt)];
    }
    WholePrefix(trace);
  }

  lemma {:induction false} ResponsiveHopsHaveAddrs(trace: seq<seq<Reply>>)
    ensures forall i :: 0 <= i < |ResponsiveHops(trace)| ==> ResponsiveHops(trace)[i].addr != ""
    decreases |trace|
  {
    if trace != [] {
      ResponsiveHopsHaveAddrs(trace[..|trace| - 1]);
      BestReplyIsFirstResponsive(trace[|trace| - 1]);
      assert ResponsiveHops(trace) == ResponsiveHops(trace[..|trace| - 1]) + HopOf(trace[|trace| - 1]);
    }
  }

  /** The lost share of the packets sent. */
  function LossRatio(sent: nat, rcvd: nat): (loss: real)
    ensures 0.0 <= loss <= 1.0
    ensures loss == 0.0 <==> sent <= rcvd
    ensures loss == 1.0 <==> rcvd == 0 < sent
    ensures rcvd < sent ==> loss * sent as real == (sent - rcvd) as real
  {
    if sent == 0 then 0.0
    else if rcvd >= sent then 0.0
    else
      var loss := (sent - rcvd) as real / sent as real;
      assert loss * sent as real == (sent - rcvd) as real;
      DivideBetween((sent - rcvd) as real, sent as real, 0.0, 1.0);
      loss
  }
}
