/** What a batching writer's select statement can deliver, whoever the writer is. */
module SelectLoop {
  import opened Sequences

  datatype Event<R> =
    | Received(r: R)
    | Tick
    | Closed
    | Cancelled(buffered: seq<R>)
  {
    predicate Stops() {
      Closed? || Cancelled?
    }

    /** The records the event hands over. */
    function Records(): seq<R> {
      match this
      case Received(r) => [r]
      case Cancelled(buffered) => buffered
      case _ => []
    }
  }

  /** The records a script delivers, up to and including the event that stops the writer. */
  function Delivered<R>(script: seq<Event<R>>): seq<R>
    decreases |script|
  {
    if script == [] then []
    else if Stopped(script[..|script| - 1]) then Delivered(script[..|script| - 1])
    else Delivered(script[..|script| - 1]) + script[|script| - 1].Records()
  }

  predicate Stopped<R>(script: seq<Event<R>>) {
    exists i :: 0 <= i < |script| && script[i].Stops()
  }

  lemma DeliveredNext<R>(script: seq<Event<R>>, i: nat)
    requires i < |script| && !Stopped(script[..i])
    ensures Stopped(script[..i + 1]) <==> script[i].Stops()
    ensures Delivered(script[..i + 1]) == Delivered(script[..i]) + script[i].Records()
  {
    assert script[..i + 1][..i] == script[..i];
    assert script[..i + 1] == script[..i] + [script[i]];
  }

  /** Nothing is delivered after the writer has stopped. */
  lemma {:induction false} DeliveredOnceStopped<R>(script: seq<Event<R>>, i: nat)
    requires i <= |script| && Stopped(script[..i])
    ensures Stopped(script) && Delivered(script) == Delivered(script[..i])
    decreases |script|
  {
    if i < |script| {
      var front := script[..|script| - 1];
      assert front[..i] == script[..i];
      DeliveredOnceStopped(front, i);
      var k :| 0 <= k < |front| && front[k].Stops();
      assert script[k].Stops();
    } else {
      WholePrefix(script);
    }
  }

  /** What a writer has received of a script whose first `i` events only hand over records or tick. */
  function Handed<R>(script: seq<Event<R>>, i: nat): seq<R>
    requires i <= |script| && forall j :: 0 <= j < i ==> script[j].Received? || script[j].Tick?
  {
    if i == 0 then []
    else Handed(script, i - 1) + if script[i - 1].Received? then [script[i - 1].r] else []
  }

  /**
    * A writer takes every record up to the close of its input or a cancellation, what is then still buffered
    * only if cancelled, and nothing more; without either it does not stop.
    */
  lemma {:induction false} DeliveredExactly<R>(script: seq<Event<R>>, i: nat)
    requires i <= |script| && forall j :: 0 <= j < i ==> script[j].Received? || script[j].Tick?
    requires i < |script| ==> script[i].Closed? || script[i].Cancelled?
    ensures Stopped(script) <==> i < |script|
    ensures Delivered(script) ==
            Handed(script, i) + if i < |script| && script[i].Cancelled? then script[i].buffered else []
  {
    DeliveredSoFar(script, i);
    NothingRight(Handed(script, i));
    if i < |script| {
      DeliveredNext(script, i);
      DeliveredOnceStopped(script, i + 1);
    } else {
      WholePrefix(script);
    }
  }

  lemma {:induction false} DeliveredSoFar<R>(script: seq<Event<R>>, i: nat)
    requires i <= |script| && forall j :: 0 <= j < i ==> script[j].Received? || script[j].Tick?
    ensures !Stopped(script[..i]) && Delivered(script[..i]) == Handed(script, i)
  {
    if i > 0 {
      DeliveredSoFar(script, i - 1);
      DeliveredNext(script, i - 1);
    }
  }
}
