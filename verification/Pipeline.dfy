/**
  * The ingestion pipeline as a step system: connections feed one channel, a tee copies it to the sinks
  * without blocking, and a writer empties each sink. Any step that is enabled may come next.
  */
module Pipeline {
  import opened SelectLoop
  import opened Sequences
  import opened Wrappers
  import RowWriter

  const CAPACITY: nat := 8192

  datatype Channel<R> = Channel(queue: seq<R>, closed: bool)

  // ---- connections -----------------------------------------------------------------------

  /** Where the goroutine of one subscription stands. */
  datatype Phase = Apart | Streaming | Returned | Counted | Done

  /** `once` counts the connection in progress, `count` the ones before it. */
  datatype Producer = Producer(phase: Phase, once: nat, count: nat)

  /** What the producer sent and has not yet added to the shared total. */
  function Unreported(p: Producer): nat {
    match p.phase
    case Streaming => p.count + p.once
    case Apart | Returned => p.count
    case Counted | Done => 0
  }

  function UnreportedBy(ps: seq<Producer>): nat
    decreases |ps|
  {
    if ps == [] then 0 else UnreportedBy(ps[..|ps| - 1]) + Unreported(ps[|ps| - 1])
  }

  // ---- tee and sinks -----------------------------------------------------------------------

  /** Record in hand and the next sink to offer it to, or the next sink to close. */
  datatype Tee<R> = Waiting | Offering(r: R, next: nat) | Closing(next: nat) | Finished

  datatype Writer<R> = Running | Draining(buffered: seq<R>) | Ended

  /** One sink: its channel, the records dropped for it, and what its writer's select statement delivered. */
  datatype Sink<R> = Sink(chan: Channel<R>, dropped: nat, script: seq<Event<R>>, writer: Writer<R>)
  {
    /** Everything the writer has taken out of the channel. */
    function Taken(): seq<R> {
      Delivered(script) + if writer.Draining? then writer.buffered else []
    }

    /** Everything the tee managed to put into the channel. */
    function Accepted(): seq<R> {
      Taken() + chan.queue
    }
  }

  /**
    * `crashed` is the panic of sending on, or closing, a closed channel. `sent` and `observed` record, in
    * order, what entered and what left the stream channel.
    */
  datatype State<R> = State(
    producers: seq<Producer>, total: nat, stream: Channel<R>, logged: Option<nat>,
    tee: Tee<R>, sinks: seq<Sink<R>>,
    cancelled: bool, groupCancelled: bool, crashed: bool,
    sent: seq<R>, observed: seq<R>)

  function Start<R>(producers: nat, sinks: nat): State<R> {
    State(seq(producers, _ => Producer(Apart, 0, 0)), 0, Channel([], false), None,
          Waiting, seq(sinks, _ => Sink(Channel([], false), 0, [], Running)),
          false, false, false, [], [])
  }

  // ---- steps -------------------------------------------------------------------------------

  datatype ProducerMove<R> = Connect | Send(r: R) | Disconnect | Return | AddTotal | SignalDone

  datatype TeeMove = Read | Offer | Next | End | Close | Finish

  datatype WriterMove = Receive | Wake | SeeClosed | SeeCancelled | Drain | FinishDrain

  datatype Action<R> =
    | Produce(i: nat, produce: ProducerMove<R>)
    | CloseStream
    | LogTotal
    | CancelContext
    | CancelGroup
    | MoveTee(tee: TeeMove)
    | Write(k: nat, write: WriterMove)

  predicate ProducerCan<R>(p: Producer, m: ProducerMove<R>, room: bool) {
    match m
    case Connect => p.phase == Apart
    case Send(_) => p.phase == Streaming && room
    case Disconnect => p.phase == Streaming
    case Return => p.phase == Apart || p.phase == Streaming
    case AddTotal => p.phase == Returned
    case SignalDone => p.phase == Counted
  }

  function Produced<R>(p: Producer, m: ProducerMove<R>): Producer {
    match m
    case Connect => Producer(Streaming, 0, p.count)
    case Send(_) => p.(once := p.once + 1)
    case Disconnect => Producer(Apart, 0, p.count + p.once)
    case Return => Producer(Returned, 0, p.count + if p.phase == Streaming then p.once else 0)
    case AddTotal => p.(phase := Counted)
    case SignalDone => p.(phase := Done)
  }

  /** A writer's select proceeds with whatever is ready; its drain stops as soon as nothing is. */
  predicate WriterCan<R>(sink: Sink<R>, m: WriterMove, cancelled: bool) {
    match m
    case Receive => sink.writer == Running && sink.chan.queue != []
    case Wake => sink.writer == Running
    case SeeClosed => sink.writer == Running && sink.chan.closed && sink.chan.queue == []
    case SeeCancelled => sink.writer == Running && cancelled
    case Drain => sink.writer.Draining? && sink.chan.queue != []
    case FinishDrain => sink.writer.Draining? && sink.chan.queue == []
  }

  function Written<R>(sink: Sink<R>, m: WriterMove, cancelled: bool): Sink<R>
    requires WriterCan(sink, m, cancelled)
  {
    match m
    case Receive =>
      sink.(script := sink.script + [Received(sink.chan.queue[0])], chan := sink.chan.(queue := sink.chan.queue[1..]))
    case Wake => sink.(script := sink.script + [Tick])
    case SeeClosed => sink.(script := sink.script + [Closed], writer := Ended)
    case SeeCancelled => sink.(writer := Draining([]))
    case Drain =>
      sink.(writer := Draining(sink.writer.buffered + [sink.chan.queue[0]]),
            chan := sink.chan.(queue := sink.chan.queue[1..]))
    case FinishDrain => sink.(script := sink.script + [Cancelled(sink.writer.buffered)], writer := Ended)
  }

  /** The select with a default: into the channel if there is room, dropped for this sink otherwise. */
  function Offered<R>(sink: Sink<R>, r: R): Sink<R> {
    if |sink.chan.queue| < CAPACITY then sink.(chan := sink.chan.(queue := sink.chan.queue + [r]))
    else sink.(dropped := sink.dropped + 1)
  }

  /** It is dropped exactly when the channel is full at that moment, and accepted last otherwise. */
  lemma DropsExactlyWhenFull<R>(sink: Sink<R>, r: R)
    ensures Offered(sink, r).dropped > sink.dropped <==> |sink.chan.queue| >= CAPACITY
    ensures Offered(sink, r).Accepted() == sink.Accepted() + if |sink.chan.queue| >= CAPACITY then [] else [r]
  {
    Assoc(sink.Taken(), sink.chan.queue, [r]);
    NothingRight(sink.Accepted());
  }

  predicate TeeCan<R>(s: State<R>, m: TeeMove) {
    match m
    case Read => s.tee == Waiting && s.stream.queue != []
    case Offer => s.tee.Offering? && s.tee.next < |s.sinks|
    case Next => s.tee.Offering? && s.tee.next >= |s.sinks|
    case End => s.tee == Waiting && (s.cancelled || (s.stream.closed && s.stream.queue == []))
    case Close => s.tee.Closing? && s.tee.next < |s.sinks|
    case Finish => s.tee.Closing? && s.tee.next >= |s.sinks|
  }

  function Teed<R>(s: State<R>, m: TeeMove): State<R>
    requires TeeCan(s, m)
  {
    match m
    case Read =>
      s.(tee := Offering(s.stream.queue[0], 0),
         stream := s.stream.(queue := s.stream.queue[1..]),
         observed := s.observed + [s.stream.queue[0]])
    case Offer =>
      var sink := s.sinks[s.tee.next];
      s.(tee := Offering(s.tee.r, s.tee.next + 1),
         sinks := s.sinks[s.tee.next := Offered(sink, s.tee.r)],
         crashed := s.crashed || sink.chan.closed)
    case Next => s.(tee := Waiting)
    case End => s.(tee := Closing(0))
    case Close =>
      var sink := s.sinks[s.tee.next];
      s.(tee := Closing(s.tee.next + 1),
         sinks := s.sinks[s.tee.next := sink.(chan := sink.chan.(closed := true))],
         crashed := s.crashed || sink.chan.closed)
    case Finish => s.(tee := Finished)
  }

  /** The guard of a step: where its goroutine stands and which channel operations can proceed. */
  predicate Enabled<R>(s: State<R>, a: Action<R>) {
    match a
    case Produce(i, m) => i < |s.producers| && ProducerCan(s.producers[i], m, |s.stream.queue| < CAPACITY)
    case CloseStream => !s.stream.closed && forall i :: 0 <= i < |s.producers| ==> s.producers[i].phase == Done
    case LogTotal => s.stream.closed && s.logged.None?
    case CancelContext => true
    case CancelGroup => true
    case MoveTee(m) => TeeCan(s, m)
    case Write(k, m) => k < |s.sinks| && WriterCan(s.sinks[k], m, AnyCancelled(s))
  }

  function Do<R>(s: State<R>, a: Action<R>): State<R>
    requires Enabled(s, a)
  {
    match a
    case Produce(i, m) =>
      var moved := s.(producers := s.producers[i := Produced(s.producers[i], m)]);
      (match m
       case Send(r) =>
         moved.(stream := s.stream.(queue := s.stream.queue + [r]),
                sent := s.sent + [r],
                crashed := s.crashed || s.stream.closed)
       case AddTotal => moved.(total := s.total + s.producers[i].count)
       case _ => moved)
    case CloseStream => s.(stream := s.stream.(closed := true))
    case LogTotal => s.(logged := Some(s.total))
    case CancelContext => s.(cancelled := true)
    case CancelGroup => s.(groupCancelled := true)
    case MoveTee(m) => Teed(s, m)
    case Write(k, m) => s.(sinks := s.sinks[k := Written(s.sinks[k], m, AnyCancelled(s))])
  }

  /** The writers run under the group's context, which ends with the main one. */
  predicate AnyCancelled<R>(s: State<R>) {
    s.cancelled || s.groupCancelled
  }

  /** `t` can be reached from `s` by these steps, each enabled when it is taken. */
  ghost predicate IsRun<R>(s: State<R>, actions: seq<Action<R>>, t: State<R>)
    decreases |actions|
  {
    if actions == [] then s == t
    else Enabled(s, actions[0]) && IsRun(Do(s, actions[0]), actions[1..], t)
  }

  // ---- subsequences --------------------------------------------------------------------------

  /** `sub` is `all` with some elements left out. */
  ghost predicate IsSubsequence<R>(sub: seq<R>, all: seq<R>)
    decreases |all|
  {
    if all == [] then sub == []
    else
      var front := all[..|all| - 1];
      || IsSubsequence(sub, front)
      || (sub != [] && sub[|sub| - 1] == all[|all| - 1] && IsSubsequence(sub[..|sub| - 1], front))
  }

  lemma SubsequenceGrows<R>(sub: seq<R>, all: seq<R>, r: R)
    requires IsSubsequence(sub, all)
    ensures IsSubsequence(sub, all + [r]) && IsSubsequence(sub + [r], all + [r])
  {
    assert (all + [r])[..|all|] == all;
    assert (sub + [r])[..|sub|] == sub;
  }

  /** Nothing left out is the whole. */
  lemma {:induction false} FullSubsequence<R>(sub: seq<R>, all: seq<R>)
    requires IsSubsequence(sub, all)
    ensures |sub| <= |all| && (|sub| == |all| ==> sub == all)
    decreases |all|
  {
    if all != [] {
      var front := all[..|all| - 1];
      if IsSubsequence(sub, front) {
        FullSubsequence(sub, front);
      } else {
        FullSubsequence(sub[..|sub| - 1], front);
      }
    }
  }

  // ---- what every step keeps -------------------------------------------------------------------

  /** What the tee has offered to sink `k` so far: all it observed, but for a record it still holds for it. */
  function SeenBy<R>(tee: Tee<R>, observed: seq<R>, k: nat): seq<R> {
    if tee.Offering? && tee.next <= k && observed != [] then observed[..|observed| - 1] else observed
  }

  /** Whether the tee has closed sink `k`. */
  predicate TeeClosed<R>(tee: Tee<R>, k: nat) {
    tee == Finished || (tee.Closing? && k < tee.next)
  }

  predicate EndedByClose<R>(sink: Sink<R>) {
    sink.writer == Ended && sink.script != [] && sink.script[|sink.script| - 1].Closed?
  }

  /** Only a cancelled context makes a writer leave without having seen its channel closed. */
  predicate LeftEarly<R>(sink: Sink<R>) {
    sink.writer.Draining? || (sink.writer == Ended && !EndedByClose(sink))
  }

  ghost predicate SinkOk<R>(sink: Sink<R>, seen: seq<R>, closed: bool, cancelled: bool) {
    && IsSubsequence(sink.Accepted(), seen)
    && |seen| == sink.dropped + |sink.Accepted()|
    && (sink.dropped > 0 ==> |sink.Accepted()| >= CAPACITY)
    && sink.chan.closed == closed
    && |sink.chan.queue| <= CAPACITY
    && (Stopped(sink.script) <==> sink.writer == Ended)
    && (EndedByClose(sink) ==> closed && sink.chan.queue == [])
    && (LeftEarly(sink) ==> cancelled)
  }

  ghost predicate SinksOk<R>(sinks: seq<Sink<R>>, tee: Tee<R>, observed: seq<R>, cancelled: bool) {
    forall k :: 0 <= k < |sinks| ==> SinkOk(sinks[k], SeenBy(tee, observed, k), TeeClosed(tee, k), cancelled)
  }

  ghost predicate SourceOk<R>(s: State<R>) {
    && s.observed + s.stream.queue == s.sent
    && |s.stream.queue| <= CAPACITY
    && s.total + UnreportedBy(s.producers) == |s.sent|
    && (s.stream.closed ==> forall i :: 0 <= i < |s.producers| ==> s.producers[i].phase == Done)
    && (s.logged.Some? ==> s.stream.closed && s.logged.value == |s.sent|)
    && (s.tee.Closing? || s.tee.Finished? ==> s.cancelled || (s.stream.closed && s.stream.queue == []))
    && (s.tee.Offering? || s.tee.Closing? ==> s.tee.next <= |s.sinks|)
    && (s.tee.Offering? ==> s.observed != [] && s.tee.r == s.observed[|s.observed| - 1])
  }

  ghost predicate Inv<R>(s: State<R>) {
    && !s.crashed
    && SourceOk(s)
    && SinksOk(s.sinks, s.tee, s.observed, AnyCancelled(s))
  }

  // ---- connections

  lemma {:induction false} OneProducerMoves(ps: seq<Producer>, i: nat, p: Producer)
    requires i < |ps|
    ensures UnreportedBy(ps[i := p]) == UnreportedBy(ps) - Unreported(ps[i]) + Unreported(p)
    decreases |ps|
  {
    var n := |ps| - 1;
    if i < n {
      assert ps[i := p][..n] == ps[..n][i := p];
      OneProducerMoves(ps[..n], i, p);
    } else {
      assert ps[i := p][..n] == ps[..n];
    }
  }

  lemma {:induction false} AllReported(ps: seq<Producer>)
    requires forall i :: 0 <= i < |ps| ==> ps[i].phase == Done || ps[i] == Producer(Apart, 0, 0)
    ensures UnreportedBy(ps) == 0
    decreases |ps|
  {
    if ps != [] {
      AllReported(ps[..|ps| - 1]);
    }
  }

  lemma ProduceKeepsSource<R>(s: State<R>, i: nat, m: ProducerMove<R>)
    requires SourceOk(s) && !s.crashed && Enabled(s, Produce(i, m))
    ensures SourceOk(Do(s, Produce(i, m))) && !Do(s, Produce(i, m)).crashed
  {
    OneProducerMoves(s.producers, i, Produced(s.producers[i], m));
    assert s.producers[i].phase != Done;
    if m.Send? {
      Assoc(s.observed, s.stream.queue, [m.r]);
    }
  }

  lemma ProduceKeeps<R>(s: State<R>, i: nat, m: ProducerMove<R>)
    requires Inv(s) && Enabled(s, Produce(i, m))
    ensures Inv(Do(s, Produce(i, m)))
  {
    ProduceKeepsSource(s, i, m);
  }

  /** Cancelling allows a writer more, and forbids it nothing. */
  lemma MayBeCancelled<R>(sinks: seq<Sink<R>>, tee: Tee<R>, observed: seq<R>, cancelled: bool)
    requires SinksOk(sinks, tee, observed, cancelled)
    ensures SinksOk(sinks, tee, observed, true)
  {
  }

  /** When the stream is closed every producer has reported, so the logged total is the number sent. */
  lemma CloseOrLogKeeps<R>(s: State<R>, a: Action<R>)
    requires Inv(s) && Enabled(s, a) && (a.CloseStream? || a.LogTotal? || a.CancelContext? || a.CancelGroup?)
    ensures Inv(Do(s, a))
  {
    if a.LogTotal? {
      AllReported(s.producers);
    }
    MayBeCancelled(s.sinks, s.tee, s.observed, AnyCancelled(s));
  }

  // ---- tee

  lemma OfferedKeeps<R>(sink: Sink<R>, seen: seq<R>, r: R, cancelled: bool)
    requires SinkOk(sink, seen, false, cancelled)
    ensures SinkOk(Offered(sink, r), seen + [r], false, cancelled)
  {
    SubsequenceGrows(sink.Accepted(), seen, r);
    DropsExactlyWhenFull(sink, r);
  }

  lemma ClosedKeeps<R>(sink: Sink<R>, seen: seq<R>, cancelled: bool)
    requires SinkOk(sink, seen, false, cancelled)
    ensures SinkOk(sink.(chan := sink.chan.(closed := true)), seen, true, cancelled)
  {
    assert sink.(chan := sink.chan.(closed := true)).Accepted() == sink.Accepted();
  }

  /** To sink `j` the tee looks as it did before. */
  ghost predicate SameView<R>(tee: Tee<R>, observed: seq<R>, tee': Tee<R>, observed': seq<R>, j: nat) {
    SeenBy(tee', observed', j) == SeenBy(tee, observed, j) && TeeClosed(tee', j) == TeeClosed(tee, j)
  }

  /** At most sink `k` has changed, or what it has seen; the others look as before. */
  lemma OneSinkChanges<R>(sinks: seq<Sink<R>>, tee: Tee<R>, observed: seq<R>, k: nat,
                          sinks': seq<Sink<R>>, tee': Tee<R>, observed': seq<R>, cancelled: bool)
    requires SinksOk(sinks, tee, observed, cancelled) && |sinks'| == |sinks|
    requires forall j :: 0 <= j < |sinks| && j != k ==> sinks'[j] == sinks[j]
    requires forall j :: 0 <= j < |sinks| && j != k ==> SameView(tee, observed, tee', observed', j)
    requires k < |sinks| ==> SinkOk(sinks'[k], SeenBy(tee', observed', k), TeeClosed(tee', k), cancelled)
    ensures SinksOk(sinks', tee', observed', cancelled)
  {
    forall j | 0 <= j < |sinks| && j != k
      ensures SinkOk(sinks'[j], SeenBy(tee', observed', j), TeeClosed(tee', j), cancelled)
    {
      assert SameView(tee, observed, tee', observed', j);
      assert SinkOk(sinks[j], SeenBy(tee, observed, j), TeeClosed(tee, j), cancelled);
    }
  }

  lemma TeeKeepsSource<R>(s: State<R>, m: TeeMove)
    requires SourceOk(s) && TeeCan(s, m)
    ensures SourceOk(Teed(s, m))
  {
    if m == Read {
      assert [s.stream.queue[0]] + s.stream.queue[1..] == s.stream.queue;
      Assoc(s.observed, [s.stream.queue[0]], s.stream.queue[1..]);
    }
  }

  /** An offer shows the record in hand to one sink. */
  lemma OfferShows<R>(r: R, k: nat, observed: seq<R>, tee: Tee<R>, tee': Tee<R>)
    requires tee == Offering(r, k) && tee' == Offering(r, k + 1)
    requires observed != [] && r == observed[|observed| - 1]
    ensures SeenBy(tee', observed, k) == SeenBy(tee, observed, k) + [r]
    ensures forall j: nat :: j != k ==> SameView(tee, observed, tee', observed, j)
  {
    SplitLast(observed);
  }

  lemma OfferKeeps<R>(s: State<R>)
    requires Inv(s) && TeeCan(s, Offer)
    ensures Inv(Teed(s, Offer))
  {
    var k, t := s.tee.next, Teed(s, Offer);
    TeeKeepsSource(s, Offer);
    OfferShows(s.tee.r, k, s.observed, s.tee, t.tee);
    assert SinkOk(s.sinks[k], SeenBy(s.tee, s.observed, k), false, AnyCancelled(s));
    OfferedKeeps(s.sinks[k], SeenBy(s.tee, s.observed, k), s.tee.r, AnyCancelled(s));
    OneSinkChanges(s.sinks, s.tee, s.observed, k, t.sinks, t.tee, t.observed, AnyCancelled(s));
  }

  lemma CloseKeeps<R>(s: State<R>)
    requires Inv(s) && TeeCan(s, Close)
    ensures Inv(Teed(s, Close))
  {
    var k, t := s.tee.next, Teed(s, Close);
    TeeKeepsSource(s, Close);
    assert SinkOk(s.sinks[k], SeenBy(s.tee, s.observed, k), false, AnyCancelled(s));
    ClosedKeeps(s.sinks[k], SeenBy(s.tee, s.observed, k), AnyCancelled(s));
    OneSinkChanges(s.sinks, s.tee, s.observed, k, t.sinks, t.tee, t.observed, AnyCancelled(s));
  }

  /** The other moves show nothing new to any sink. */
  lemma MoveShowsNothing<R>(s: State<R>, m: TeeMove)
    requires TeeCan(s, m) && m != Offer && m != Close
    ensures var t := Teed(s, m);
      forall j: nat :: j < |s.sinks| ==> SameView(s.tee, s.observed, t.tee, t.observed, j)
  {
    if m == Read {
      SplitLast(Teed(s, m).observed);
      assert Teed(s, m).observed[..|s.observed|] == s.observed;
    }
  }

  lemma MoveKeeps<R>(s: State<R>, m: TeeMove)
    requires Inv(s) && TeeCan(s, m) && m != Offer && m != Close
    ensures Inv(Teed(s, m))
  {
    var t := Teed(s, m);
    TeeKeepsSource(s, m);
    MoveShowsNothing(s, m);
    OneSinkChanges(s.sinks, s.tee, s.observed, |s.sinks|, t.sinks, t.tee, t.observed, AnyCancelled(s));
  }

  lemma TeeKeeps<R>(s: State<R>, m: TeeMove)
    requires Inv(s) && TeeCan(s, m)
    ensures Inv(Teed(s, m))
  {
    match m
    case Offer => OfferKeeps(s);
    case Close => CloseKeeps(s);
    case _ => MoveKeeps(s, m);
  }

  // ---- writers

  lemma OneMoreEvent<R>(script: seq<Event<R>>, e: Event<R>)
    requires !Stopped(script)
    ensures Delivered(script + [e]) == Delivered(script) + e.Records()
    ensures Stopped(script + [e]) <==> e.Stops()
  {
    assert (script + [e])[..|script|] == script;
    DeliveredNext(script + [e], |script|);
    WholePrefix(script + [e]);
  }

  /** A writer moves records from its channel to its script, and neither loses nor reorders any. */
  lemma WrittenKeepsAccepted<R>(sink: Sink<R>, m: WriterMove, cancelled: bool)
    requires WriterCan(sink, m, cancelled) && (Stopped(sink.script) <==> sink.writer == Ended)
    ensures Written(sink, m, cancelled).Accepted() == sink.Accepted()
  {
    var got, queue := Delivered(sink.script), sink.chan.queue;
    NothingRight(got);
    if queue != [] {
      assert queue == [queue[0]] + queue[1..];
    }
    match m
    case Receive =>
      OneMoreEvent(sink.script, Received(queue[0]));
      NothingRight(got + [queue[0]]);
      Assoc(got, [queue[0]], queue[1..]);
    case Wake =>
      OneMoreEvent(sink.script, Tick);
    case SeeClosed =>
      OneMoreEvent(sink.script, Closed);
    case SeeCancelled =>
    case Drain =>
      Assoc(got, sink.writer.buffered, [queue[0]]);
      Assoc(got + sink.writer.buffered, [queue[0]], queue[1..]);
    case FinishDrain =>
      OneMoreEvent(sink.script, Cancelled(sink.writer.buffered));
      NothingRight(got + sink.writer.buffered);
  }

  /** A writer ends with the script that made it end. */
  lemma WrittenKeepsEnd<R>(sink: Sink<R>, m: WriterMove, cancelled: bool)
    requires WriterCan(sink, m, cancelled) && (Stopped(sink.script) <==> sink.writer == Ended)
    ensures var after := Written(sink, m, cancelled);
      && (Stopped(after.script) <==> after.writer == Ended)
      && (EndedByClose(after) ==> after.chan.closed && after.chan.queue == [])
      && (LeftEarly(after) ==> cancelled || LeftEarly(sink))
  {
    match m
    case Receive => OneMoreEvent(sink.script, Received(sink.chan.queue[0]));
    case Wake => OneMoreEvent(sink.script, Tick);
    case SeeClosed => OneMoreEvent(sink.script, Closed);
    case FinishDrain => OneMoreEvent(sink.script, Cancelled(sink.writer.buffered));
    case _ =>
  }

  lemma WrittenIsOk<R>(sink: Sink<R>, m: WriterMove, seen: seq<R>, closed: bool, cancelled: bool)
    requires SinkOk(sink, seen, closed, cancelled) && WriterCan(sink, m, cancelled)
    ensures SinkOk(Written(sink, m, cancelled), seen, closed, cancelled)
  {
    WrittenKeepsAccepted(sink, m, cancelled);
    WrittenKeepsEnd(sink, m, cancelled);
  }

  lemma WriteKeeps<R>(s: State<R>, k: nat, m: WriterMove)
    requires Inv(s) && Enabled(s, Write(k, m))
    ensures Inv(Do(s, Write(k, m)))
  {
    WrittenIsOk(s.sinks[k], m, SeenBy(s.tee, s.observed, k), TeeClosed(s.tee, k), AnyCancelled(s));
    WithSink(s, k, Written(s.sinks[k], m, AnyCancelled(s)));
  }

  lemma WithSink<R>(s: State<R>, k: nat, sink: Sink<R>)
    requires Inv(s) && k < |s.sinks| && SinkOk(sink, SeenBy(s.tee, s.observed, k), TeeClosed(s.tee, k), AnyCancelled(s))
    ensures Inv(s.(sinks := s.sinks[k := sink]))
  {
    SinkUpdated(s.sinks, s.tee, s.observed, k, sink, AnyCancelled(s));
  }

  lemma SinkUpdated<R>(sinks: seq<Sink<R>>, tee: Tee<R>, observed: seq<R>, k: nat, sink: Sink<R>, cancelled: bool)
    requires SinksOk(sinks, tee, observed, cancelled) && k < |sinks|
    requires SinkOk(sink, SeenBy(tee, observed, k), TeeClosed(tee, k), cancelled)
    ensures SinksOk(sinks[k := sink], tee, observed, cancelled)
  {
  }

  // ---- runs

  lemma {:induction false} RunKeeps<R>(s: State<R>, actions: seq<Action<R>>, t: State<R>)
    requires Inv(s) && IsRun(s, actions, t)
    ensures Inv(t) && |t.sinks| == |s.sinks|
    decreases |actions|
  {
    if actions != [] {
      var a := actions[0];
      match a {
        case Produce(i, m) => ProduceKeeps(s, i, m);
        case MoveTee(m) => TeeKeeps(s, m);
        case Write(k, m) => WriteKeeps(s, k, m);
        case _ => CloseOrLogKeeps(s, a);
      }
      RunKeeps(Do(s, a), actions[1..], t);
    }
  }

  lemma StartIsOk<R>(producers: nat, sinks: nat)
    ensures Inv(Start<R>(producers, sinks))
  {
    var s := Start<R>(producers, sinks);
    AllReported(s.producers);
  }

  // ---- main results ----------------------------------------------------------------------------

  /** A record the tee has observed and not yet offered to sink `k`. */
  function InHand<R>(tee: Tee<R>, k: nat): nat {
    if tee.Offering? && tee.next <= k then 1 else 0
  }

  /** What was observed was dropped for the sink, is queued, was received, or is in hand; and it stays in order. */
  ghost predicate IsConserved<R>(sink: Sink<R>, tee: Tee<R>, observed: seq<R>, k: nat) {
    && |observed| == sink.dropped + |sink.chan.queue| + |sink.Taken()| + InHand(tee, k)
    && IsSubsequence(sink.Accepted(), observed)
    && (sink.dropped > 0 ==> |sink.Accepted()| >= 8192)
  }

  lemma SinkIsConserved<R>(sink: Sink<R>, tee: Tee<R>, observed: seq<R>, k: nat, closed: bool, cancelled: bool)
    requires SinkOk(sink, SeenBy(tee, observed, k), closed, cancelled) && (tee.Offering? ==> observed != [])
    ensures IsConserved(sink, tee, observed, k)
  {
    if InHand(tee, k) == 1 {
      SubsequenceGrows(sink.Accepted(), SeenBy(tee, observed, k), observed[|observed| - 1]);
      SplitLast(observed);
    }
  }

  /**
    * In every reachable state: no channel was sent to or closed after it was closed; the tee observes
    * what was sent, in order; and for each sink what it observed is dropped, queued, received or in hand,
    * with the accepted records a subsequence of the observed ones and none dropped before the sink's
    * channel was first full.
    */
  lemma RecordsAreConserved<R>(producers: nat, sinks: nat, actions: seq<Action<R>>, t: State<R>)
    requires IsRun(Start(producers, sinks), actions, t)
    ensures !t.crashed
    ensures t.observed + t.stream.queue == t.sent
    ensures t.logged.Some? ==> t.logged.value == |t.sent|
    ensures |t.sinks| == sinks
    ensures forall k :: 0 <= k < sinks ==> IsConserved(t.sinks[k], t.tee, t.observed, k)
  {
    StartIsOk<R>(producers, sinks);
    RunKeeps(Start(producers, sinks), actions, t);
    forall k | 0 <= k < sinks
      ensures IsConserved(t.sinks[k], t.tee, t.observed, k)
    {
      SinkIsConserved(t.sinks[k], t.tee, t.observed, k, TeeClosed(t.tee, k), AnyCancelled(t));
    }
  }

  /** A sink for which nothing was dropped got exactly what was observed before the record in hand. */
  lemma NoDropsMeansAll<R>(producers: nat, sinks: nat, actions: seq<Action<R>>, t: State<R>, k: nat)
    requires IsRun(Start(producers, sinks), actions, t) && k < |t.sinks| && t.sinks[k].dropped == 0
    ensures InHand(t.tee, k) <= |t.observed|
    ensures t.sinks[k].Accepted() == t.observed[..|t.observed| - InHand(t.tee, k)]
  {
    StartIsOk<R>(producers, sinks);
    RunKeeps(Start(producers, sinks), actions, t);
    assert SinkOk(t.sinks[k], SeenBy(t.tee, t.observed, k), TeeClosed(t.tee, k), AnyCancelled(t));
    FullSubsequence(t.sinks[k].Accepted(), SeenBy(t.tee, t.observed, k));
  }

  /** For the ClickHouse sink, what its writer received is in its batch, inserted, or failed. */
  lemma InsertedRowsAreAccounted<R>(producers: nat, sinks: nat, actions: seq<Action<R>>, t: State<R>, k: nat,
                                    batchSize: nat, outcomes: nat -> bool)
    requires IsRun(Start(producers, sinks), actions, t) && k < |t.sinks| && batchSize > 0
    ensures var p := RowWriter.After(t.sinks[k].script, batchSize);
      var buffered := if t.sinks[k].writer.Draining? then |t.sinks[k].writer.buffered| else 0;
      && |t.observed| == t.sinks[k].dropped + |t.sinks[k].chan.queue| + InHand(t.tee, k) + buffered + |p.batch|
           + RowWriter.RowsWhere(p.posted, outcomes, true) + RowWriter.RowsWhere(p.posted, outcomes, false)
      && (t.sinks[k].writer == Ended ==> p.batch == [])
  {
    RecordsAreConserved(producers, sinks, actions, t);
    RowWriter.RowsAreAccounted(t.sinks[k].script, batchSize, outcomes);
    RowWriter.BatchesAreSized(t.sinks[k].script, batchSize);
    StartIsOk<R>(producers, sinks);
    RunKeeps(Start(producers, sinks), actions, t);
    assert SinkOk(t.sinks[k], SeenBy(t.tee, t.observed, k), TeeClosed(t.tee, k), AnyCancelled(t));
  }

  /**
    * A pipeline that ran dry without being cancelled: once a writer has ended, every record ever sent was
    * either dropped for it or received by it.
    */
  lemma UncancelledEndIsComplete<R>(producers: nat, sinks: nat, actions: seq<Action<R>>, t: State<R>, k: nat)
    requires IsRun(Start(producers, sinks), actions, t) && k < |t.sinks|
    requires !t.cancelled && !t.groupCancelled && t.sinks[k].writer == Ended
    ensures |t.sent| == t.sinks[k].dropped + |Delivered(t.sinks[k].script)|
    ensures IsSubsequence(Delivered(t.sinks[k].script), t.sent)
    ensures t.sinks[k].dropped == 0 ==> Delivered(t.sinks[k].script) == t.sent
  {
    RecordsAreConserved(producers, sinks, actions, t);
    StartIsOk<R>(producers, sinks);
    RunKeeps(Start(producers, sinks), actions, t);
    var sink := t.sinks[k];
    assert SinkOk(sink, SeenBy(t.tee, t.observed, k), TeeClosed(t.tee, k), AnyCancelled(t));
    assert EndedByClose(sink);
    NothingRight(t.observed);
    NothingRight(Delivered(sink.script));
    assert sink.Accepted() == Delivered(sink.script);
    FullSubsequence(Delivered(sink.script), t.sent);
  }

  // ---- shutdown ----------------------------------------------------------------------------------

  ghost predicate AllStopped<R>(s: State<R>) {
    && (forall i :: 0 <= i < |s.producers| ==> s.producers[i].phase == Done)
    && s.logged.Some?
    && s.tee == Finished
    && forall k :: 0 <= k < |s.sinks| ==> s.sinks[k].writer == Ended
  }

  /** The steps that wind the pipeline down; none of them needs another record. */
  predicate IsShutdown<R>(a: Action<R>) {
    match a
    case Produce(_, m) => m.Return? || m.AddTotal? || m.SignalDone?
    case CloseStream => true
    case LogTotal => true
    case MoveTee(m) => m != Read
    case Write(_, m) => m != Receive && m != Wake
    case _ => false
  }

  function ProducerWork(ps: seq<Producer>): nat
    decreases |ps|
  {
    if ps == [] then 0 else ProducerWork(ps[..|ps| - 1]) + StepsLeft(ps[|ps| - 1])
  }

  function StepsLeft(p: Producer): nat {
    match p.phase
    case Apart | Streaming => 3
    case Returned => 2
    case Counted => 1
    case Done => 0
  }

  function SinkWork<R>(sinks: seq<Sink<R>>): nat
    decreases |sinks|
  {
    if sinks == [] then 0 else SinkWork(sinks[..|sinks| - 1]) + WriterLeft(sinks[|sinks| - 1])
  }

  function WriterLeft<R>(sink: Sink<R>): nat {
    match sink.writer
    case Running => |sink.chan.queue| + 2
    case Draining(_) => |sink.chan.queue| + 1
    case Ended => 0
  }

  /** An offer may lengthen a queue by one, so it weighs two. */
  function TeeLeft<R>(tee: Tee<R>, n: nat): int {
    match tee
    case Waiting => n + 2
    case Offering(_, next) => n + 3 + 2 * (n - next)
    case Closing(next) => 1 + n - next
    case Finished => 0
  }

  function Work<R>(s: State<R>): int {
    ProducerWork(s.producers) + (if s.stream.closed then 0 else 1) + (if s.logged.Some? then 0 else 1)
    + TeeLeft(s.tee, |s.sinks|) + SinkWork(s.sinks)
  }

  lemma {:induction false} OneProducerWorks(ps: seq<Producer>, i: nat, p: Producer)
    requires i < |ps|
    ensures ProducerWork(ps[i := p]) == ProducerWork(ps) - StepsLeft(ps[i]) + StepsLeft(p)
    decreases |ps|
  {
    var n := |ps| - 1;
    if i < n {
      assert ps[i := p][..n] == ps[..n][i := p];
      OneProducerWorks(ps[..n], i, p);
    } else {
      assert ps[i := p][..n] == ps[..n];
    }
  }

  lemma {:induction false} OneSinkWorks<R>(sinks: seq<Sink<R>>, k: nat, sink: Sink<R>)
    requires k < |sinks|
    ensures SinkWork(sinks[k := sink]) == SinkWork(sinks) - WriterLeft(sinks[k]) + WriterLeft(sink)
    decreases |sinks|
  {
    var n := |sinks| - 1;
    if k < n {
      assert sinks[k := sink][..n] == sinks[..n][k := sink];
      OneSinkWorks(sinks[..n], k, sink);
    } else {
      assert sinks[k := sink][..n] == sinks[..n];
    }
  }

  lemma ProducerShrinks<R>(s: State<R>, i: nat, m: ProducerMove<R>)
    requires Enabled(s, Produce(i, m)) && IsShutdown(Produce(i, m))
    ensures Work(Do(s, Produce(i, m))) < Work(s)
  {
    OneProducerWorks(s.producers, i, Produced(s.producers[i], m));
  }

  lemma OfferLeft<R>(sink: Sink<R>, r: R)
    ensures WriterLeft(Offered(sink, r)) <= WriterLeft(sink) + 1
  {
  }

  lemma TeeShrinks<R>(s: State<R>, m: TeeMove)
    requires TeeCan(s, m) && m != Read
    requires s.tee.Offering? || s.tee.Closing? ==> s.tee.next <= |s.sinks|
    ensures Work(Teed(s, m)) < Work(s)
  {
    if m == Offer {
      OfferLeft(s.sinks[s.tee.next], s.tee.r);
      OneSinkWorks(s.sinks, s.tee.next, Offered(s.sinks[s.tee.next], s.tee.r));
    } else if m == Close {
      var sink := s.sinks[s.tee.next];
      OneSinkWorks(s.sinks, s.tee.next, sink.(chan := sink.chan.(closed := true)));
    }
  }

  lemma WrittenLeft<R>(sink: Sink<R>, m: WriterMove, cancelled: bool)
    requires WriterCan(sink, m, cancelled) && m != Receive && m != Wake
    ensures WriterLeft(Written(sink, m, cancelled)) < WriterLeft(sink)
  {
  }

  lemma WriterShrinks<R>(s: State<R>, k: nat, m: WriterMove)
    requires Enabled(s, Write(k, m)) && IsShutdown(Action<R>.Write(k, m))
    ensures Work(Do(s, Write(k, m))) < Work(s)
  {
    WrittenLeft(s.sinks[k], m, AnyCancelled(s));
    OneSinkWorks(s.sinks, k, Written(s.sinks[k], m, AnyCancelled(s)));
  }

  /** Every shutdown step leaves less to do, so no schedule of them goes on for ever. */
  lemma ShutdownShrinks<R>(s: State<R>, a: Action<R>)
    requires SourceOk(s) && Enabled(s, a) && IsShutdown(a)
    ensures Work(s) >= 0 && Work(Do(s, a)) < Work(s)
  {
    match a
    case Produce(i, m) => ProducerShrinks(s, i, m);
    case MoveTee(m) => TeeShrinks(s, m);
    case Write(k, m) => WriterShrinks(s, k, m);
    case _ =>
  }

  /** Once the context is cancelled the pipeline is never stuck: all has stopped, or a shutdown step can be taken. */
  lemma CancelledNeverStuck<R>(producers: nat, sinks: nat, actions: seq<Action<R>>, s: State<R>)
    requires IsRun(Start(producers, sinks), actions, s) && s.cancelled
    ensures AllStopped(s) || exists a :: IsShutdown(a) && Enabled(s, a)
  {
    if i: nat :| i < |s.producers| && s.producers[i].phase != Done {
      var m := match s.producers[i].phase
        case Returned => AddTotal
        case Counted => SignalDone
        case _ => ProducerMove<R>.Return;
      assert IsShutdown(Produce(i, m)) && Enabled(s, Produce(i, m));
    } else if !s.stream.closed {
      assert IsShutdown(Action<R>.CloseStream) && Enabled(s, CloseStream);
    } else if s.logged.None? {
      assert IsShutdown(Action<R>.LogTotal) && Enabled(s, LogTotal);
    } else if s.tee != Finished {
      var m := match s.tee
        case Waiting => End
        case Offering(_, next) => if next < |s.sinks| then Offer else Next
        case Closing(next) => if next < |s.sinks| then Close else Finish
        case Finished => Finish;
      assert IsShutdown(Action<R>.MoveTee(m)) && Enabled(s, MoveTee(m));
    } else if k: nat :| k < |s.sinks| && s.sinks[k].writer != Ended {
      var m := if s.sinks[k].writer == Running then SeeCancelled
        else if s.sinks[k].chan.queue != [] then Drain else FinishDrain;
      assert IsShutdown(Action<R>.Write(k, m)) && Enabled(s, Write(k, m));
    }
  }

  // ---- running dry -------------------------------------------------------------------------------

  /** The steps that empty the channels of a pipeline whose stream was closed, and then end it. */
  predicate IsDraining<R>(a: Action<R>) {
    match a
    case LogTotal => true
    case MoveTee(_) => true
    case Write(_, m) => m != Wake
    case _ => false
  }

  /** A record still in the stream channel is read, offered to every sink, and taken by every writer. */
  function Left<R>(s: State<R>): int {
    Work(s) + |s.stream.queue| * (3 * |s.sinks| + 2)
  }

  lemma ReadShrinks<R>(s: State<R>)
    requires TeeCan(s, Read)
    ensures Left(Teed(s, Read)) < Left(s)
  {
    var n, weight := |s.stream.queue|, 3 * |s.sinks| + 2;
    assert (n - 1) * weight == n * weight - weight;
  }

  lemma ReceiveShrinks<R>(s: State<R>, k: nat)
    requires Enabled(s, Write(k, Receive))
    ensures Work(Do(s, Write(k, Receive))) < Work(s)
  {
    OneSinkWorks(s.sinks, k, Written(s.sinks[k], Receive, AnyCancelled(s)));
  }

  lemma DrainingKeepsStream<R>(s: State<R>, a: Action<R>)
    requires Enabled(s, a) && IsDraining(a) && a != MoveTee(Read)
    ensures Do(s, a).stream == s.stream && |Do(s, a).sinks| == |s.sinks|
  {
  }

  lemma SomethingLeft<R>(s: State<R>)
    requires SourceOk(s)
    ensures Left(s) >= 0
  {
    TeeHasLeft(s.tee, |s.sinks|);
    NeverNegative(|s.stream.queue|, 3 * |s.sinks| + 2);
  }

  lemma TeeHasLeft<R>(tee: Tee<R>, n: nat)
    requires tee.Offering? || tee.Closing? ==> tee.next <= n
    ensures TeeLeft(tee, n) >= 0
  {
  }

  lemma NeverNegative(n: nat, weight: nat)
    ensures n * weight >= 0
  {
  }

  /** Every draining step leaves less to do, so no schedule of them goes on for ever. */
  lemma DrainingShrinks<R>(s: State<R>, a: Action<R>)
    requires SourceOk(s) && Enabled(s, a) && IsDraining(a)
    ensures Left(s) >= 0 && Left(Do(s, a)) < Left(s)
  {
    SomethingLeft(s);
    if a == MoveTee(Read) {
      ReadShrinks(s);
    } else {
      DrainingKeepsStream(s, a);
      WorkShrinks(s, a);
    }
  }

  lemma WorkShrinks<R>(s: State<R>, a: Action<R>)
    requires SourceOk(s) && Enabled(s, a) && IsDraining(a) && a != MoveTee(Read)
    ensures Work(Do(s, a)) < Work(s)
  {
    if a.Write? && a.write == Receive {
      ReceiveShrinks(s, a.k);
    } else {
      ShutdownShrinks(s, a);
    }
  }

  /**
    * Once the stream is closed the pipeline runs dry even if it is never cancelled: all has stopped, or a
    * draining step can be taken.
    */
  lemma ClosedNeverStuck<R>(producers: nat, sinks: nat, actions: seq<Action<R>>, s: State<R>)
    requires IsRun(Start(producers, sinks), actions, s) && s.stream.closed
    ensures AllStopped(s) || exists a :: IsDraining(a) && Enabled(s, a)
  {
    StartIsOk<R>(producers, sinks);
    RunKeeps(Start(producers, sinks), actions, s);
    if s.logged.None? {
      assert IsDraining(Action<R>.LogTotal) && Enabled(s, LogTotal);
    } else if s.tee != Finished {
      var m := match s.tee
        case Waiting => if s.stream.queue != [] then Read else End
        case Offering(_, next) => if next < |s.sinks| then Offer else Next
        case Closing(next) => if next < |s.sinks| then Close else Finish
        case Finished => Finish;
      assert IsDraining(Action<R>.MoveTee(m)) && Enabled(s, MoveTee(m));
    } else if k: nat :| k < |s.sinks| && s.sinks[k].writer != Ended {
      assert SinkOk(s.sinks[k], SeenBy(s.tee, s.observed, k), TeeClosed(s.tee, k), AnyCancelled(s));
      var m := if s.sinks[k].writer == Running
        then if s.sinks[k].chan.queue != [] then Receive else SeeClosed
        else if s.sinks[k].chan.queue != [] then Drain else FinishDrain;
      assert IsDraining(Action<R>.Write(k, m)) && Enabled(s, Write(k, m));
    }
  }

  lemma FirstIsTaken<R>(sink: Sink<R>, cancelled: bool) returns (m: WriterMove)
    requires sink.writer != Ended && !Stopped(sink.script) && sink.chan.queue != []
    ensures WriterCan(sink, m, cancelled)
    ensures Written(sink, m, cancelled).Taken() == sink.Taken() + [sink.chan.queue[0]]
  {
    var r := sink.chan.queue[0];
    if sink.writer == Running {
      m := Receive;
      OneMoreEvent(sink.script, Received(r));
      NothingRight(Delivered(sink.script));
      NothingRight(Delivered(sink.script) + [r]);
    } else {
      m := Drain;
      Assoc(Delivered(sink.script), sink.writer.buffered, [r]);
    }
  }

  /** In every reachable state a writer that has not ended can take the first record of its channel. */
  lemma QueuedCanBeTaken<R>(producers: nat, sinks: nat, actions: seq<Action<R>>, s: State<R>, k: nat)
    requires IsRun(Start(producers, sinks), actions, s)
    requires k < |s.sinks| && s.sinks[k].writer != Ended && s.sinks[k].chan.queue != []
    ensures exists m ::
      && Enabled(s, Write(k, m))
      && Do(s, Write(k, m)).sinks[k].Taken() == s.sinks[k].Taken() + [s.sinks[k].chan.queue[0]]
  {
    StartIsOk<R>(producers, sinks);
    RunKeeps(Start(producers, sinks), actions, s);
    assert SinkOk(s.sinks[k], SeenBy(s.tee, s.observed, k), TeeClosed(s.tee, k), AnyCancelled(s));
    var m := FirstIsTaken(s.sinks[k], AnyCancelled(s));
    assert Enabled(s, Write(k, m));
  }
}
