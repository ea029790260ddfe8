/** The batching writer that inserts measurement records into ClickHouse. */
module RowWriter {
  import opened SelectLoop
  import opened Sequences

  /** The batches handed to the database, in order, and the rows still waiting. */
  datatype Progress<R> = Progress(posted: seq<seq<R>>, batch: seq<R>)

  function Flush<R>(p: Progress<R>): Progress<R> {
    if p.batch == [] then p else Progress(p.posted + [p.batch], [])
  }

  function Step<R>(p: Progress<R>, e: Event<R>, batchSize: nat): Progress<R> {
    match e
    case Received(r) =>
      var grown := p.(batch := p.batch + [r]);
      if |grown.batch| >= batchSize then Flush(grown) else grown
    case Tick => Flush(p)
    case Closed => Flush(p)
    case Cancelled(buffered) => Flush(p.(batch := p.batch + buffered))
  }

  /** Where the writer stands after a script; what comes after its end does not matter. */
  function After<R>(script: seq<Event<R>>, batchSize: nat): Progress<R>
    decreases |script|
  {
    if script == [] then Progress([], [])
    else
      var front := script[..|script| - 1];
      if Stopped(front) then After(front, batchSize)
      else Step(After(front, batchSize), script[|script| - 1], batchSize)
  }

  function Flat<R>(batches: seq<seq<R>>): seq<R>
    decreases |batches|
  {
    if batches == [] then [] else Flat(batches[..|batches| - 1]) + batches[|batches| - 1]
  }

  /** Rows of the batches the database took, or of those it did not. */
  function RowsWhere<R>(batches: seq<seq<R>>, outcomes: nat -> bool, outcome: bool): nat
    decreases |batches|
  {
    if batches == [] then 0
    else
      var n := |batches| - 1;
      RowsWhere(batches[..n], outcomes, outcome) + if outcomes(n) == outcome then |batches[n]| else 0
  }

  function BatchesWhere<R>(batches: seq<seq<R>>, outcomes: nat -> bool, outcome: bool): nat
    decreases |batches|
  {
    if batches == [] then 0
    else
      var n := |batches| - 1;
      BatchesWhere(batches[..n], outcomes, outcome) + if outcomes(n) == outcome then 1 else 0
  }

  lemma FlushKeepsRows<R>(p: Progress<R>)
    ensures Flat(Flush(p).posted) + Flush(p).batch == Flat(p.posted) + p.batch
  {
    if p.batch != [] {
      assert (p.posted + [p.batch])[..|p.posted|] == p.posted;
    }
  }

  /** Every event adds its records to the batch, and may then flush it. */
  lemma StepGrows<R>(p: Progress<R>, e: Event<R>, batchSize: nat)
    ensures var grown := Progress(p.posted, p.batch + e.Records());
      Step(p, e, batchSize) == grown || Step(p, e, batchSize) == Flush(grown)
  {
    NothingRight(p.batch);
  }

  lemma StepAddsRows<R>(p: Progress<R>, e: Event<R>, batchSize: nat)
    ensures var q := Step(p, e, batchSize);
      Flat(q.posted) + q.batch == (Flat(p.posted) + p.batch) + e.Records()
  {
    StepGrows(p, e, batchSize);
    FlushKeepsRows(Progress(p.posted, p.batch + e.Records()));
    Assoc(Flat(p.posted), p.batch, e.Records());
  }

  /** Every record received is in exactly one posted batch or still waiting, in the order received. */
  lemma {:induction false} NothingIsLost<R>(script: seq<Event<R>>, batchSize: nat)
    ensures var p := After(script, batchSize);
      Flat(p.posted) + p.batch == Delivered(script)
    decreases |script|
  {
    if script != [] {
      var front := script[..|script| - 1];
      NothingIsLost(front, batchSize);
      if !Stopped(front) {
        StepAddsRows(After(front, batchSize), script[|script| - 1], batchSize);
      }
    }
  }

  /** `posted` holds batches of 1 to `batchSize` rows; `drained` excuses the last one. */
  predicate Sized<R>(posted: seq<seq<R>>, batchSize: nat, drained: bool) {
    forall i :: 0 <= i < |posted| ==>
      posted[i] != [] && (|posted[i]| <= batchSize || (drained && i == |posted| - 1))
  }

  predicate EndsCancelled<R>(script: seq<Event<R>>) {
    exists i :: 0 <= i < |script| && script[i].Cancelled?
  }

  /**
    * No batch is empty, only the one posted while shutting down may exceed the batch size, fewer rows
    * than that are ever left waiting, and none after a tick or once the writer has stopped.
    */
  lemma {:induction false} BatchesAreSized<R>(script: seq<Event<R>>, batchSize: nat)
    requires batchSize > 0
    ensures var p := After(script, batchSize);
      && Sized(p.posted, batchSize, EndsCancelled(script))
      && |p.batch| < batchSize
      && (Stopped(script) || (script != [] && script[|script| - 1].Tick?) ==> p.batch == [])
    decreases |script|
  {
    if script != [] {
      var front, last := script[..|script| - 1], script[|script| - 1];
      BatchesAreSized(front, batchSize);
      assert last == script[|script| - 1] && forall i :: 0 <= i < |front| ==> front[i] == script[i];
      assert last.Cancelled? ==> EndsCancelled(script);
      assert EndsCancelled(front) ==> Stopped(front) && EndsCancelled(script);
    }
  }

  /**
    * No batch is posted early: when the `k`-th was, everything delivered so far was handed over with it, and
    * unless that was at a tick or the end it was full.
    */
  lemma {:induction false} WhenPosted<R>(script: seq<Event<R>>, batchSize: nat, k: nat) returns (i: nat)
    requires k < |After(script, batchSize).posted|
    ensures i < |script| && !Stopped(script[..i])
    ensures var posted := After(script, batchSize).posted;
      && (script[i].Received? ==> |posted[k]| >= batchSize)
      && Flat(posted[..k + 1]) == Delivered(script[..i + 1])
    decreases |script|
  {
    var front := script[..|script| - 1];
    if k < |After(front, batchSize).posted| {
      i := WhenPosted(front, batchSize, k);
      PostedIsKept(script, batchSize);
      KeptUpTo(front, script, i);
      KeptUpTo(After(front, batchSize).posted, After(script, batchSize).posted, k);
    } else {
      i := |script| - 1;
      PostedLast(script, batchSize, k);
      WholePrefix(After(script, batchSize).posted);
      WholePrefix(script);
    }
  }

  /** A step posts one batch at most, and then nothing is waiting. */
  lemma StepPostsOnce<R>(p: Progress<R>, e: Event<R>, batchSize: nat)
    ensures var q := Step(p, e, batchSize);
      && p.posted <= q.posted && |q.posted| <= |p.posted| + 1
      && (|q.posted| > |p.posted| ==> q.batch == [] && (e.Received? ==> |q.posted[|p.posted|]| >= batchSize))
  {
  }

  lemma PostedIsKept<R>(script: seq<Event<R>>, batchSize: nat)
    requires script != []
    ensures After(script[..|script| - 1], batchSize).posted <= After(script, batchSize).posted
  {
    var front := script[..|script| - 1];
    if !Stopped(front) {
      StepPostsOnce(After(front, batchSize), script[|script| - 1], batchSize);
    }
  }

  lemma PostedLast<R>(script: seq<Event<R>>, batchSize: nat, k: nat)
    requires script != [] && |After(script[..|script| - 1], batchSize).posted| <= k
    requires k < |After(script, batchSize).posted|
    ensures !Stopped(script[..|script| - 1])
    ensures var posted := After(script, batchSize).posted;
      && |posted| == k + 1
      && (script[|script| - 1].Received? ==> |posted[k]| >= batchSize)
      && Flat(posted) == Delivered(script)
  {
    StepPostsOnce(After(script[..|script| - 1], batchSize), script[|script| - 1], batchSize);
    NothingIsLost(script, batchSize);
    NothingRight(Flat(After(script, batchSize).posted));
  }

  /** The database took a row or refused it. */
  lemma {:induction false} OutcomesSplit<R>(batches: seq<seq<R>>, outcomes: nat -> bool)
    ensures RowsWhere(batches, outcomes, true) + RowsWhere(batches, outcomes, false) == |Flat(batches)|
    ensures BatchesWhere(batches, outcomes, true) + BatchesWhere(batches, outcomes, false) == |batches|
    ensures (forall n: nat :: n < |batches| ==> outcomes(n)) ==>
      RowsWhere(batches, outcomes, false) == BatchesWhere(batches, outcomes, false) == 0
    ensures (forall n: nat :: n < |batches| ==> !outcomes(n)) ==>
      RowsWhere(batches, outcomes, true) == BatchesWhere(batches, outcomes, true) == 0
    decreases |batches|
  {
    if batches != [] {
      OutcomesSplit(batches[..|batches| - 1], outcomes);
    }
  }

  /** received = waiting + inserted + failed; nothing has failed as long as all inserts succeed */
  lemma RowsAreAccounted<R>(script: seq<Event<R>>, batchSize: nat, outcomes: nat -> bool)
    ensures var p := After(script, batchSize);
      |Delivered(script)| ==
        |p.batch| + RowsWhere(p.posted, outcomes, true) + RowsWhere(p.posted, outcomes, false)
    ensures (forall n: nat :: outcomes(n)) ==> RowsWhere(After(script, batchSize).posted, outcomes, false) == 0
    ensures (forall n: nat :: !outcomes(n)) ==> RowsWhere(After(script, batchSize).posted, outcomes, true) == 0
  {
    NothingIsLost(script, batchSize);
    OutcomesSplit(After(script, batchSize).posted, outcomes);
  }

  lemma {:induction false} AfterOnceStopped<R>(script: seq<Event<R>>, i: nat, batchSize: nat)
    requires i <= |script| && Stopped(script[..i])
    ensures After(script, batchSize) == After(script[..i], batchSize)
    decreases |script|
  {
    if i < |script| {
      var front := script[..|script| - 1];
      assert front[..i] == script[..i];
      DeliveredOnceStopped(front, i);
      AfterOnceStopped(front, i, batchSize);
    } else {
      WholePrefix(script);
    }
  }

  lemma AfterNext<R>(script: seq<Event<R>>, i: nat, batchSize: nat)
    requires i < |script| && !Stopped(script[..i])
    ensures After(script[..i + 1], batchSize) == Step(After(script[..i], batchSize), script[i], batchSize)
  {
    assert script[..i + 1][..i] == script[..i];
  }

  /** The nth call of the insert succeeds when `outcomes(n)`; a failed batch is logged and dropped. */
  class Writer<R(!new)> {
    const outcomes: nat -> bool
    var posted: seq<seq<R>>
    var batch: seq<R>
    var inserted: nat
    var flushes: nat

    constructor (outcomes: nat -> bool)
      ensures this.outcomes == outcomes
      ensures posted == [] && batch == [] && inserted == flushes == 0
    {
      this.outcomes := outcomes;
      posted, batch, inserted, flushes := [], [], 0, 0;
    }

    ghost function View(): Progress<R>
      reads this
    {
      Progress(posted, batch)
    }

    ghost predicate Counts()
      reads this
    {
      && inserted == RowsWhere(posted, outcomes, true)
      && flushes == BatchesWhere(posted, outcomes, true)
    }

    method FlushBatch()
      requires Counts()
      modifies this
      ensures View() == Flush(old(View())) && Counts()
    {
      if |batch| == 0 {
        return;
      }
      var rows := batch;
      batch := [];
      var ok := outcomes(|posted|);
      assert (posted + [rows])[..|posted|] == posted;
      posted := posted + [rows];
      if !ok {
        return;
      }
      flushes := flushes + 1;
      inserted := inserted + |rows|;
    }

    method Drain(buffered: seq<R>)
      modifies `batch
      ensures batch == old(batch) + buffered
    {
      NothingRight(batch);
      for i := 0 to |buffered|
        invariant batch == old(batch) + buffered[..i]
      {
        OneMore(old(batch), buffered, i);
        batch := batch + [buffered[i]];
      }
      WholePrefix(buffered);
    }

    /** One turn of the select statement. */
    method Handle(e: Event<R>, batchSize: nat) returns (stop: bool)
      requires Counts()
      modifies this
      ensures View() == Step(old(View()), e, batchSize) && Counts() && stop == e.Stops()
    {
      stop := e.Stops();
      match e
      case Received(r) =>
        batch := batch + [r];
        if |batch| >= batchSize {
          FlushBatch();
        }
      case Tick =>
        FlushBatch();
      case Closed =>
        FlushBatch();
      case Cancelled(buffered) =>
        Drain(buffered);
        FlushBatch();
    }

    /** The writer's loop; `stopped` tells whether the script reached the end of the input or a cancellation. */
    method Run(script: seq<Event<R>>, batchSize0: int) returns (stopped: bool)
      requires posted == [] && batch == [] && inserted == flushes == 0
      modifies this
      ensures stopped == Stopped(script)
      ensures View() == After(script, if batchSize0 <= 0 then 1000 else batchSize0) && Counts()
    {
      var batchSize := if batchSize0 <= 0 then 1000 else batchSize0;
      stopped := false;
      for i := 0 to |script|
        invariant !stopped && !Stopped(script[..i])
        invariant View() == After(script[..i], batchSize) && Counts()
      {
        DeliveredNext(script, i);
        AfterNext(script, i, batchSize);
        stopped := Handle(script[i], batchSize);
        if stopped {
          DeliveredOnceStopped(script, i + 1);
          AfterOnceStopped(script, i + 1, batchSize);
          return;
        }
      }
      WholePrefix(script);
    }
  }
}
