/** The fire/resolve state machine over the alert tables. */
module AlertEvaluator {
  import opened Wrappers
  import opened AlertStore
  import opened Sequences
  import SqlText

  datatype ScopeRow = ScopeRow(scope: string, value: real, context: string)

  /** What a nil context is stored as. */
  const NO_CONTEXT := "null"

  function Passes(r: Rule, row: ScopeRow): bool {
    Compare(r.comparison, row.value, r.threshold)
  }

  /** The value lies on the side of the threshold that the rule's comparison names. */
  ghost predicate Crosses(r: Rule, row: ScopeRow) {
    || (row.value > r.threshold && r.comparison in {">", ">="})
    || (row.value == r.threshold && r.comparison in {">=", "==", "<="})
    || (row.value < r.threshold && r.comparison in {"<", "<="})
  }

  lemma PassesAsNamed(r: Rule)
    ensures forall row :: Passes(r, row) <==> Crosses(r, row)
  {
    forall row
      ensures Passes(r, row) <==> Crosses(r, row)
    {
      ComparisonsAsNamed(r.comparison, row.value, r.threshold);
    }
  }

  /** The last row of a scope that crosses the rule's threshold. */
  function Crossing(r: Rule, rows: seq<ScopeRow>, scope: string): Option<ScopeRow>
    decreases |rows|
  {
    if rows == [] then None
    else
      var last := rows[|rows| - 1];
      if last.scope == scope && Passes(r, last) then Some(last) else Crossing(r, rows[..|rows| - 1], scope)
  }

  /** The metric of a scope's first row, or 0 for a scope the query no longer returns. */
  function FirstValue(rows: seq<ScopeRow>, scope: string): real {
    if rows == [] then 0.0 else if rows[0].scope == scope then rows[0].value else FirstValue(rows[1..], scope)
  }

  /** One evaluation of one scope. */
  function NextCell(c: Cell, r: Rule, rows: seq<ScopeRow>, now: Instant, scope: string): Cell {
    match Crossing(r, rows, scope)
    case Some(row) =>
      if IsFiring(c) then
        c.(state := Some(State(Firing, row.value, now, c.state.value.firedAt, row.context)))
      else
        Cell(Some(State(Firing, row.value, now, Some(now), row.context)),
             c.history + [Transition(Fired, row.value, row.context, now)])
    case None =>
      if IsFiring(c) then
        var value := FirstValue(rows, scope);
        Cell(Some(State(Ok, value, now, None, NO_CONTEXT)),
             c.history + [Transition(Resolved, value, NO_CONTEXT, now)])
      else
        c
  }

  /** Some row of the scope crosses the threshold. */
  lemma {:induction false} CrossingExists(r: Rule, rows: seq<ScopeRow>, scope: string)
    ensures Crossing(r, rows, scope).Some? <==> exists row :: row in rows && row.scope == scope && Crosses(r, row)
    ensures Crossing(r, rows, scope).Some? ==>
      var row := Crossing(r, rows, scope).value;
      row in rows && row.scope == scope && Crosses(r, row)
    decreases |rows|
  {
    PassesAsNamed(r);
    if rows != [] {
      CrossingExists(r, rows[..|rows| - 1], scope);
      assert forall row :: row in rows <==> row in rows[..|rows| - 1] || row == rows[|rows| - 1];
    }
  }

  /**
    * An evaluation leaves a scope firing exactly when one of its rows crosses the threshold, records an
    * event exactly when that changes, keeps the start of an episode that goes on, and keeps state and
    * history telling the same story.
    */
  lemma NextCellIsCoherent(c: Cell, r: Rule, rows: seq<ScopeRow>, now: Instant, scope: string)
    requires Coherent(c)
    ensures var next := NextCell(c, r, rows, now, scope);
      && Coherent(next)
      && (IsFiring(next) <==> exists row :: row in rows && row.scope == scope && Crosses(r, row))
      && (next.history == c.history <==> IsFiring(next) == IsFiring(c))
      && c.history <= next.history && |next.history| <= |c.history| + 1
      && (IsFiring(c) && IsFiring(next) ==> next.state.value.firedAt == c.state.value.firedAt)
  {
    CrossingExists(r, rows, scope);
  }

  /** Row `i` crosses the threshold, and no later row of its scope does. */
  ghost predicate CrossesLast(r: Rule, rows: seq<ScopeRow>, scope: string, i: nat) {
    && i < |rows| && rows[i].scope == scope && Crosses(r, rows[i])
    && forall j :: i < j < |rows| && rows[j].scope == scope ==> !Crosses(r, rows[j])
  }

  /** Row `i` is the first of its scope. */
  predicate ComesFirst(rows: seq<ScopeRow>, scope: string, i: nat) {
    i < |rows| && rows[i].scope == scope && forall j :: 0 <= j < i ==> rows[j].scope != scope
  }

  lemma {:induction false} CrossingIsLast(r: Rule, rows: seq<ScopeRow>, scope: string, i: nat)
    requires CrossesLast(r, rows, scope, i)
    ensures Crossing(r, rows, scope) == Some(rows[i])
    decreases |rows|
  {
    PassesAsNamed(r);
    if i < |rows| - 1 {
      CrossingIsLast(r, rows[..|rows| - 1], scope, i);
    }
  }

  lemma {:induction false} FirstValueIsFirst(rows: seq<ScopeRow>, scope: string, i: nat)
    requires ComesFirst(rows, scope, i)
    ensures FirstValue(rows, scope) == rows[i].value
    decreases |rows|
  {
    if i > 0 {
      FirstValueIsFirst(rows[1..], scope, i - 1);
    }
  }

  lemma {:induction false} NoFirstValue(rows: seq<ScopeRow>, scope: string)
    requires forall i :: 0 <= i < |rows| ==> rows[i].scope != scope
    ensures FirstValue(rows, scope) == 0.0
    decreases |rows|
  {
    if rows != [] {
      NoFirstValue(rows[1..], scope);
    }
  }

  lemma LastCrossingExists(r: Rule, rows: seq<ScopeRow>, scope: string) returns (i: nat)
    requires exists row :: row in rows && row.scope == scope && Crosses(r, row)
    ensures CrossesLast(r, rows, scope, i)
    decreases |rows|
  {
    var n := |rows| - 1;
    if rows[n].scope == scope && Crosses(r, rows[n]) {
      i := n;
    } else {
      SplitLast(rows);
      i := LastCrossingExists(r, rows[..n], scope);
    }
  }

  lemma FirstRowExists(rows: seq<ScopeRow>, scope: string) returns (i: nat)
    requires exists row :: row in rows && row.scope == scope
    ensures ComesFirst(rows, scope, i)
    decreases |rows|
  {
    if rows[0].scope == scope {
      i := 0;
    } else {
      assert rows == [rows[0]] + rows[1..];
      var k := FirstRowExists(rows[1..], scope);
      i := k + 1;
    }
  }

  /**
    * What an evaluation records. A firing scope shows the value and context of its last crossing row, and when
    * that is new, an event does too. A resolved one shows the value of its first row, or 0 if the query no
    * longer returns the scope. A scope that was not firing and has no crossing row is left as it was.
    */
  lemma NextCellRecords(c: Cell, r: Rule, rows: seq<ScopeRow>, now: Instant, scope: string) returns (i: nat)
    requires Coherent(c)
    ensures var next := NextCell(c, r, rows, now, scope);
      if exists row :: row in rows && row.scope == scope && Crosses(r, row) then
        && CrossesLast(r, rows, scope, i)
        && next.state == Some(State(Firing, rows[i].value, now,
                                    if IsFiring(c) then c.state.value.firedAt else Some(now), rows[i].context))
        && next.history == c.history + if IsFiring(c) then []
                                       else [Transition(Fired, rows[i].value, rows[i].context, now)]
      else if IsFiring(c) then
        && (ComesFirst(rows, scope, i) || forall j :: 0 <= j < |rows| ==> rows[j].scope != scope)
        && var value := if ComesFirst(rows, scope, i) then rows[i].value else 0.0;
           && next.state == Some(State(Ok, value, now, None, "null"))
           && next.history == c.history + [Transition(Resolved, value, "null", now)]
      else
        next == c
  {
    i := 0;
    CrossingExists(r, rows, scope);
    if exists row :: row in rows && row.scope == scope && Crosses(r, row) {
      i := LastCrossingExists(r, rows, scope);
      CrossingIsLast(r, rows, scope, i);
      if IsFiring(c) {
        NothingRight(c.history);
      }
    } else if exists row :: row in rows && row.scope == scope {
      i := FirstRowExists(rows, scope);
      FirstValueIsFirst(rows, scope, i);
    } else {
      assert forall j :: 0 <= j < |rows| ==> rows[j] in rows;
      NoFirstValue(rows, scope);
    }
  }

  // ---- any number of evaluations ---------------------------------------------------------

  datatype Evaluation = Evaluation(rule: Rule, rows: seq<ScopeRow>, now: Instant)

  function Evaluated(c: Cell, evaluations: seq<Evaluation>, scope: string): Cell
    decreases |evaluations|
  {
    if evaluations == [] then c
    else
      var last := evaluations[|evaluations| - 1];
      NextCell(Evaluated(c, evaluations[..|evaluations| - 1], scope), last.rule, last.rows, last.now, scope)
  }

  ghost predicate CrossedLast(evaluations: seq<Evaluation>, scope: string)
    requires evaluations != []
  {
    var last := evaluations[|evaluations| - 1];
    exists row :: row in last.rows && row.scope == scope && Crosses(last.rule, row)
  }

  function CountKind(h: seq<Transition>, kind: Kind): nat
    decreases |h|
  {
    if h == [] then 0 else CountKind(h[..|h| - 1], kind) + if h[|h| - 1].kind == kind then 1 else 0
  }

  /** Every alert that fired has been resolved, but for the one still open. */
  lemma {:induction false} EpisodesClose(h: seq<Transition>)
    requires Alternates(h)
    ensures CountKind(h, Fired) == CountKind(h, Resolved) + if EndsFired(h) then 1 else 0
    decreases |h|
  {
    if h != [] {
      var init := h[..|h| - 1];
      EpisodesClose(init);
      assert init != [] ==> h[|h| - 1].kind != init[|init| - 1].kind;
    }
  }

  /**
    * However often a fresh scope is evaluated, with whatever rules and rows: it is coherent, and it is
    * firing exactly when the last evaluation had a row over the threshold.
    */
  lemma {:induction false} EvaluatedIsCoherent(evaluations: seq<Evaluation>, scope: string)
    ensures var c := Evaluated(BLANK, evaluations, scope);
      && Coherent(c)
      && CountKind(c.history, Fired) == CountKind(c.history, Resolved) + (if IsFiring(c) then 1 else 0)
      && (IsFiring(c) <==> evaluations != [] && CrossedLast(evaluations, scope))
    decreases |evaluations|
  {
    if evaluations != [] {
      var last := evaluations[|evaluations| - 1];
      EvaluatedIsCoherent(evaluations[..|evaluations| - 1], scope);
      var before := Evaluated(BLANK, evaluations[..|evaluations| - 1], scope);
      NextCellIsCoherent(before, last.rule, last.rows, last.now, scope);
    }
    EpisodesClose(Evaluated(BLANK, evaluations, scope).history);
  }

  // ---- the tables while a rule is evaluated --------------------------------------------------

  /** The scopes in `done` have been evaluated, the others are as they were. */
  ghost function Halfway(db: Tables, r: Rule, rows: seq<ScopeRow>, now: Instant, done: set<string>)
    : (int, string) -> Cell
  {
    (id, scope) =>
      if id == r.id && scope in done then NextCell(CellOf(db, id, scope), r, rows, now, scope)
      else CellOf(db, id, scope)
  }

  /** Every scope of the rule has been evaluated. */
  ghost function AllDone(db: Tables, r: Rule, rows: seq<ScopeRow>, now: Instant): (int, string) -> Cell {
    (id, scope) => if id == r.id then NextCell(CellOf(db, id, scope), r, rows, now, scope) else CellOf(db, id, scope)
  }

  ghost predicate NoneRevived(before: Tables, after: Tables) {
    && before.nextRule <= after.nextRule
    && forall id :: id in after.rules && id < before.nextRule ==> id in before.rules
  }

  function Written(c: Cell, change: Option<Transition>, state: State): Cell {
    Cell(Some(state), c.history + if change.Some? then [change.value] else [])
  }

  function WithChange(c: Cell, change: Transition): Cell {
    c.(history := c.history + [change])
  }

  lemma AtMostOne<T>(s: set<T>, x: T)
    requires s <= {x}
    ensures |s| <= 1
  {
    assert s == {} || s == {x};
  }

  /** After the event is written its scope alone is out of step. */
  lemma EventKeepsOthers(db: Tables, id: int, scope: string, change: Transition)
    requires Consistent(db, {}) && InRange(WithEvent(db, id, scope, change))
    ensures Consistent(WithEvent(db, id, scope, change), {(id, scope)})
  {
    forall i, s | i in db.rules && (i, s) != (id, scope)
      ensures Coherent(CellOf(WithEvent(db, id, scope, change), i, s))
    {
      EventAddsToOneCell(db, id, scope, change, i, s);
      assert Coherent(CellOf(db, i, s));
    }
  }

  /** Writing the state row puts it back in step. */
  lemma StateKeepsOthers(db: Tables, id: int, scope: string, state: State, inFlight: set<(int, string)>)
    requires Consistent(db, inFlight) && inFlight <= {(id, scope)} && InRange(WithState(db, id, scope, state))
    requires id in db.rules ==> Coherent(CellOf(db, id, scope).(state := Some(state)))
    ensures Consistent(WithState(db, id, scope, state), {})
  {
    forall i, s | i in db.rules ensures Coherent(CellOf(WithState(db, id, scope, state), i, s)) {
      if (i, s) != (id, scope) {
        assert Coherent(CellOf(db, i, s));
      }
    }
  }

  /** What a scope's row writes is its next cell, so writing it keeps the scope coherent. */
  lemma StepIsNext(r: Rule, rows: seq<ScopeRow>, now: Instant, scope: string, change: Option<Transition>, state: State,
                   db: Tables, after: Tables, done: set<string>)
    requires Consistent(db, {}) && scope !in done && r.id < db.nextRule
    requires Becomes(db, after, Halfway(db, r, rows, now, done))
    requires r.id in after.rules ==>
      Written(CellOf(db, r.id, scope), change, state) == NextCell(CellOf(db, r.id, scope), r, rows, now, scope)
    ensures r.id in after.rules ==> Coherent(Written(Halfway(db, r, rows, now, done)(r.id, scope), change, state))
  {
    if r.id in after.rules {
      assert Coherent(CellOf(db, r.id, scope));
      NextCellIsCoherent(CellOf(db, r.id, scope), r, rows, now, scope);
    }
  }

  lemma StepExtends(r: Rule, rows: seq<ScopeRow>, now: Instant, scope: string, change: Option<Transition>, state: State,
                    db: Tables, after: Tables, done: set<string>)
    requires scope !in done
    requires var want := Halfway(db, r, rows, now, done);
      Becomes(db, after, Except(want, r.id, scope, Written(want(r.id, scope), change, state)))
    requires r.id in after.rules && r.id in db.rules ==>
      Written(CellOf(db, r.id, scope), change, state) == NextCell(CellOf(db, r.id, scope), r, rows, now, scope)
    ensures Becomes(db, after, Halfway(db, r, rows, now, done + {scope}))
  {
    var want := Halfway(db, r, rows, now, done);
    BecomesSame(db, after, Except(want, r.id, scope, Written(want(r.id, scope), change, state)),
                Halfway(db, r, rows, now, done + {scope}));
  }

  /** The state rows of a rule, as they stand in `db`. */
  ghost predicate Recalls(existing: seq<StateRow>, db: Tables, id: int) {
    && (forall row :: row in existing ==> StateAt(db.states, id, row.scope) == Some(row.state))
    && (forall scope :: StateAt(db.states, id, scope).Some? ==> exists row :: row in existing && row.scope == scope)
  }

  ghost predicate RecallsStatus(prior: map<string, Status>, db: Tables, id: int) {
    forall scope ::
      && (scope in prior <==> StateAt(db.states, id, scope).Some?)
      && (scope in prior ==> prior[scope] == StateAt(db.states, id, scope).value.status)
  }

  ghost predicate WasCarriedOver(existing: seq<StateRow>, scope: string, firedAt: Option<Instant>) {
    (exists row :: row in existing && row.scope == scope) ==>
      exists row :: row in existing && row.scope == scope && firedAt == row.state.firedAt
  }

  /** The start of the episode that a scope's state row remembers. */
  method CarriedOver(existing: seq<StateRow>, scope: string) returns (firedAt: Option<Instant>)
    ensures WasCarriedOver(existing, scope, firedAt)
  {
    firedAt := None;
    for i := 0 to |existing|
      invariant (exists k :: 0 <= k < i && existing[k].scope == scope) ==>
        exists row :: row in existing && row.scope == scope && firedAt == row.state.firedAt
    {
      if existing[i].scope == scope {
        firedAt := existing[i].state.firedAt;
        assert existing[i] in existing;
      }
    }
  }

  method ValueOf(rows: seq<ScopeRow>, scope: string) returns (value: real)
    ensures value == FirstValue(rows, scope)
  {
    value := 0.0;
    for i := 0 to |rows|
      invariant value == 0.0 && FirstValue(rows, scope) == FirstValue(rows[i..], scope)
    {
      if rows[i].scope == scope {
        value := rows[i].value;
        break;
      }
    }
  }

  /** The last crossing row of every scope that has one. */
  method FiringRows(r: Rule, rows: seq<ScopeRow>) returns (firing: map<string, ScopeRow>)
    ensures forall scope ::
      Crossing(r, rows, scope) == if scope in firing then Some(firing[scope]) else None
    ensures forall scope :: scope in firing ==> firing[scope].scope == scope
  {
    firing := map[];
    for i := 0 to |rows|
      invariant forall scope ::
        Crossing(r, rows[..i], scope) == if scope in firing then Some(firing[scope]) else None
      invariant forall scope :: scope in firing ==> firing[scope].scope == scope
    {
      assert rows[..i + 1][..i] == rows[..i];
      if Passes(r, rows[i]) {
        firing := firing[rows[i].scope := rows[i]];
      }
    }
    assert rows[..|rows|] == rows;
  }

  /** The prior status of every scope that has a state row. */
  method PriorStatus(existing: seq<StateRow>) returns (prior: map<string, Status>)
    ensures forall db, id :: Recalls(existing, db, id) ==> RecallsStatus(prior, db, id)
  {
    prior := map[];
    for i := 0 to |existing|
      invariant forall k :: 0 <= k < i ==> existing[k].scope in prior
      invariant forall scope :: scope in prior ==>
        exists row :: row in existing && row.scope == scope && row.state.status == prior[scope]
    {
      assert existing[i] in existing;
      prior := prior[existing[i].scope := existing[i].state.status];
    }
  }

  lemma RowsRecall(existing: seq<StateRow>, now: Tables, db: Tables, id: int)
    requires InRange(now) && InRange(db) && id < db.nextRule && Becomes(db, now, AsBefore(db))
    requires forall row :: row in existing <==> row in StateRows(now) && row.ruleId == id
    ensures id in now.rules ==> Recalls(existing, db, id)
  {
    if id in now.rules {
      forall scope
        ensures StateAt(db.states, id, scope) == StateAt(now.states, id, scope)
        ensures StateAt(db.states, id, scope).Some? ==> exists row :: row in existing && row.scope == scope
      {
        assert CellOf(now, id, scope) == AsBefore(db)(id, scope);
        if (id, scope) in now.states {
          assert StateRow(id, now.rules[id].name, scope, now.states[(id, scope)]) in StateRows(now);
        }
      }
    }
  }

  /** A scope neither loop visited neither crosses the threshold nor was firing: it keeps its cell. */
  lemma AllIsDone(r: Rule, rows: seq<ScopeRow>, now: Instant, prior: map<string, Status>,
                  db: Tables, after: Tables, done: set<string>)
    requires Becomes(db, after, Halfway(db, r, rows, now, done))
    requires r.id in after.rules ==> RecallsStatus(prior, db, r.id)
    requires forall scope :: Crossing(r, rows, scope).Some? ==> scope in done
    requires forall scope :: scope in prior && prior[scope] == Firing ==> scope in done
    ensures Becomes(db, after, AllDone(db, r, rows, now))
  {
    BecomesSame(db, after, Halfway(db, r, rows, now, done), AllDone(db, r, rows, now));
  }

  // ---- ticks -------------------------------------------------------------------------------

  /** What the queries answer and the clock shows while each rule is evaluated; None is a failed query. */
  datatype World = World(rows: Rule -> Option<seq<ScopeRow>>, now: Rule -> Instant)

  /** The rules in `done` have had their turn. */
  ghost function Ticked(db: Tables, world: World, done: set<int>): (int, string) -> Cell {
    (id, scope) => if id in done then TickedCell(db, world, id, scope) else CellOf(db, id, scope)
  }

  ghost function TickedCell(db: Tables, world: World, id: int, scope: string): Cell {
    var c := CellOf(db, id, scope);
    if id in db.rules && db.rules[id].enabled && world.rows(db.rules[id]).Some? then
      NextCell(c, db.rules[id], world.rows(db.rules[id]).value, world.now(db.rules[id]), scope)
    else c
  }

  /** One scope over one turn: its own rule's step, or none. */
  lemma TurnOfCell(db: Tables, before: Tables, world: World, done: set<int>, r: Rule, id: int, scope: string)
    requires id in db.rules && r.id in db.rules && db.rules[r.id] == r && r.id !in done
    requires r.enabled && world.rows(r).Some?
    requires CellOf(before, id, scope) == Ticked(db, world, done)(id, scope)
    ensures AllDone(before, r, world.rows(r).value, world.now(r))(id, scope) ==
            Ticked(db, world, done + {r.id})(id, scope)
  {}

  lemma TickExtends(db: Tables, before: Tables, after: Tables, world: World, done: set<int>, r: Rule)
    requires InRange(db)
    requires Becomes(db, before, Ticked(db, world, done))
    requires r.id in db.rules && db.rules[r.id] == r && r.id !in done
    requires r.enabled && world.rows(r).Some?
    requires Becomes(before, after, AllDone(before, r, world.rows(r).value, world.now(r)))
    ensures Becomes(db, after, Ticked(db, world, done + {r.id}))
  {
    var rows, now := world.rows(r).value, world.now(r);
    forall id, scope | id in after.rules && id in db.rules
      ensures CellOf(after, id, scope) == Ticked(db, world, done + {r.id})(id, scope)
    {
      TurnOfCell(db, before, world, done, r, id, scope);
      assert CellOf(after, id, scope) == AllDone(before, r, rows, now)(id, scope);
    }
    forall id, scope | id in after.rules && id !in db.rules ensures CellOf(after, id, scope) == BLANK {
      NewCellStays(db, before, after, r, rows, now, id, scope);
    }
  }

  lemma TickSkips(db: Tables, before: Tables, world: World, done: set<int>, r: Rule)
    requires Becomes(db, before, Ticked(db, world, done))
    requires r.id in db.rules && db.rules[r.id] == r && !(r.enabled && world.rows(r).Some?)
    ensures Becomes(db, before, Ticked(db, world, done + {r.id}))
  {
    BecomesSame(db, before, Ticked(db, world, done), Ticked(db, world, done + {r.id}));
  }

  lemma NewCellStays(db: Tables, before: Tables, after: Tables, r: Rule, rows: seq<ScopeRow>, now: Instant,
                     id: int, scope: string)
    requires id in after.rules && id !in db.rules && r.id in db.rules
    requires id in before.rules ==> CellOf(before, id, scope) == BLANK
    requires Becomes(before, after, AllDone(before, r, rows, now))
    ensures CellOf(after, id, scope) == BLANK
  {
    if id in before.rules {
      assert CellOf(after, id, scope) == AllDone(before, r, rows, now)(id, scope);
    }
  }

  lemma NothingTicked(db: Tables, world: World)
    ensures Becomes(db, db, Ticked(db, world, {}))
  {
    NothingHappened(db);
    BecomesSame(db, db, AsBefore(db), Ticked(db, world, {}));
  }

  /** The ids of the first `n` rules. */
  function IdsOf(rules: seq<Rule>, n: nat): set<int>
    requires n <= |rules|
  {
    set k | 0 <= k < n :: rules[k].id
  }

  lemma NextId(rules: seq<Rule>, i: nat)
    requires i < |rules|
    ensures IdsOf(rules, i + 1) == IdsOf(rules, i) + {rules[i].id}
  {
  }

  lemma EachIdOnce(rules: seq<Rule>, db: Tables, i: nat)
    requires InRange(db) && i < |rules|
    requires IsOrdered(rules, RuleRows(db), (r: Rule) => (-r.id, 0))
    ensures rules[i].id in db.rules && db.rules[rules[i].id] == rules[i]
    ensures rules[i].id !in IdsOf(rules, i)
  {
    forall k | 0 <= k <= i ensures rules[k].id in db.rules && db.rules[rules[k].id] == rules[k] {
      assert rules[k] in rules;
    }
  }

  lemma AllRulesSeen(rules: seq<Rule>, db: Tables)
    requires InRange(db)
    requires forall r :: r in rules <==> r in RuleRows(db)
    ensures IdsOf(rules, |rules|) == db.rules.Keys
  {
    forall id | id in db.rules ensures exists k :: 0 <= k < |rules| && rules[k].id == id {
      assert db.rules[id] in RuleRows(db);
    }
    forall k | 0 <= k < |rules| ensures rules[k].id in db.rules {
      assert rules[k] in rules;
    }
  }

  /** Deleted rules stay deleted, and what was recorded about the others is only ever added to. */
  ghost predicate HistoriesGrow(before: Tables, after: Tables) {
    && NoneRevived(before, after)
    && forall id, scope :: id in before.rules && id in after.rules ==>
         History(before.events, id, scope) <= History(after.events, id, scope)
  }

  lemma TickedCellGrows(db: Tables, world: World, id: int, scope: string)
    requires Coherent(CellOf(db, id, scope))
    ensures History(db.events, id, scope) <= TickedCell(db, world, id, scope).history
  {
    if id in db.rules && world.rows(db.rules[id]).Some? {
      var r := db.rules[id];
      NextCellIsCoherent(CellOf(db, id, scope), r, world.rows(r).value, world.now(r), scope);
    }
  }

  /**
    * A tick resolves an open alert exactly when its rule was enabled when the tick began, its query
    * succeeded, and no row of the scope crosses the threshold any more.
    */
  lemma TickResolvesExactly(db: Tables, after: Tables, world: World, id: int, scope: string)
    requires Consistent(db, {}) && Becomes(db, after, Ticked(db, world, db.rules.Keys))
    requires id in db.rules && id in after.rules && IsFiring(CellOf(db, id, scope))
    ensures !IsFiring(CellOf(after, id, scope)) <==>
      && db.rules[id].enabled && world.rows(db.rules[id]).Some?
      && !exists row :: row in world.rows(db.rules[id]).value && row.scope == scope && Crosses(db.rules[id], row)
  {
    var r := db.rules[id];
    assert CellOf(after, id, scope) == Ticked(db, world, db.rules.Keys)(id, scope);
    assert Coherent(CellOf(db, id, scope));
    if world.rows(r).Some? {
      NextCellIsCoherent(CellOf(db, id, scope), r, world.rows(r).value, world.now(r), scope);
    }
  }

  /** A tick opens an alert exactly when its rule was enabled, its query succeeded, and a row of the scope crosses. */
  lemma TickFiresExactly(db: Tables, after: Tables, world: World, id: int, scope: string)
    requires Consistent(db, {}) && Becomes(db, after, Ticked(db, world, db.rules.Keys))
    requires id in db.rules && id in after.rules && !IsFiring(CellOf(db, id, scope))
    ensures IsFiring(CellOf(after, id, scope)) <==>
      && db.rules[id].enabled && world.rows(db.rules[id]).Some?
      && exists row :: row in world.rows(db.rules[id]).value && row.scope == scope && Crosses(db.rules[id], row)
    ensures !IsFiring(CellOf(after, id, scope)) ==> CellOf(after, id, scope) == CellOf(db, id, scope)
  {
    var r := db.rules[id];
    assert CellOf(after, id, scope) == Ticked(db, world, db.rules.Keys)(id, scope);
    if r.enabled && world.rows(r).Some? {
      assert Coherent(CellOf(db, id, scope));
      var _ := NextCellRecords(CellOf(db, id, scope), r, world.rows(r).value, world.now(r), scope);
    }
  }

  /** A valid rule whose one scope fired at time 10. */
  const LOSS_RULE := Rule(1, "loss", "loss_ratio", ">", 50.0, "target", Filters(0, 0.0, 0, 0, 0, ""), 0, true, 0, 0)

  const FIRED_TABLES := Tables(
    map[1 := LOSS_RULE], 2, map[(1, "a") := State(Firing, 80.0, 10, Some(10), NO_CONTEXT)],
    [Event(1, 1, "a", Transition(Fired, 80.0, NO_CONTEXT, 10))], 2)

  /** They are what the first evaluation with a crossing row leaves. */
  lemma FiredTablesAreReached()
    ensures CellOf(FIRED_TABLES, 1, "a") == NextCell(BLANK, LOSS_RULE, [ScopeRow("a", 80.0, NO_CONTEXT)], 10, "a")
  {
    var fired := Transition(Fired, 80.0, NO_CONTEXT, 10);
    assert History(FIRED_TABLES.events[..0], 1, "a") == [];
    assert History(FIRED_TABLES.events, 1, "a") == [] + [fired];
    assert Crossing(LOSS_RULE, [ScopeRow("a", 80.0, NO_CONTEXT)], "a").Some?;
    assert Crossing(LOSS_RULE, [ScopeRow("a", 80.0, NO_CONTEXT)], "a").value == ScopeRow("a", 80.0, NO_CONTEXT);
    assert !IsFiring(BLANK);
    assert CellOf(FIRED_TABLES, 1, "a").state == Some(State(Firing, 80.0, 10, Some(10), NO_CONTEXT));
  }

  lemma FiredTablesAreConsistent()
    ensures Consistent(FIRED_TABLES, {}) && IsFiring(CellOf(FIRED_TABLES, 1, "a"))
  {
    SqlText.TrimmedIsFixed("loss");
    forall scope
      ensures Coherent(CellOf(FIRED_TABLES, 1, scope))
    {
      assert FIRED_TABLES.events[..0] == [];
      assert History(FIRED_TABLES.events[..0], 1, scope) == [];
    }
  }

  /** Disabling that rule and then ticking, whatever the world, leaves its alert listed as active. */
  lemma DisabledAlertStaysListed(now: Instant, world: World, after: Tables)
    requires var disabled := FIRED_TABLES.(rules := map[1 := LOSS_RULE.(enabled := false, updatedAt := now)]);
      Becomes(disabled, after, Ticked(disabled, world, {1})) && InRange(after) && 1 in after.rules
    ensures Consistent(FIRED_TABLES, {}) && IsFiring(CellOf(FIRED_TABLES, 1, "a"))
    ensures CellOf(FIRED_TABLES, 1, "a") == NextCell(BLANK, LOSS_RULE, [ScopeRow("a", 80.0, NO_CONTEXT)], 10, "a")
    ensures exists row :: row in ActiveRows(after) && row.ruleId == 1 && row.scope == "a" && row.ts == Some(10)
  {
    FiredTablesAreConsistent();
    FiredTablesAreReached();
    var disabled := FIRED_TABLES.(rules := map[1 := LOSS_RULE.(enabled := false, updatedAt := now)]);
    assert CellOf(after, 1, "a") == Ticked(disabled, world, {1})(1, "a");
    assert CellOf(after, 1, "a") == CellOf(disabled, 1, "a");
    var state := after.states[(1, "a")];
    assert ActiveRow(1, after.rules[1].name, "a", state.value, state.firedAt) in ActiveRows(after);
  }

  /** No listing ever mentions a deleted rule again, whatever an evaluation in flight still wrote for it. */
  lemma DeletedIsInvisible(before: Tables, after: Tables, id: int)
    requires InRange(before) && InRange(after) && NoneRevived(before, after)
    requires id < before.nextRule && id !in before.rules
    ensures forall row :: row in StateRows(after) ==> row.ruleId != id
    ensures forall row :: row in EventRows(after) ==> row.event.ruleId != id
    ensures forall row :: row in ActiveRows(after) ==> row.ruleId != id
  {
    assert id !in after.rules;
  }

  lemma TickGrows(before: Tables, after: Tables, world: World)
    requires Consistent(before, {})
    requires Becomes(before, after, Ticked(before, world, before.rules.Keys))
    ensures HistoriesGrow(before, after)
  {
    forall id, scope | id in before.rules && id in after.rules
      ensures History(before.events, id, scope) <= History(after.events, id, scope)
    {
      assert CellOf(after, id, scope) == Ticked(before, world, before.rules.Keys)(id, scope);
      assert Coherent(CellOf(before, id, scope));
      TickedCellGrows(before, world, id, scope);
    }
  }

  lemma GrowsTransitively(a: Tables, b: Tables, c: Tables)
    requires InRange(a) && InRange(b) && InRange(c)
    requires HistoriesGrow(a, b) && HistoriesGrow(b, c)
    ensures HistoriesGrow(a, c)
  {
    forall id, scope | id in a.rules && id in c.rules
      ensures History(a.events, id, scope) <= History(c.events, id, scope)
    {
      assert id in b.rules;
    }
  }

  lemma FireIsNext(r: Rule, rows: seq<ScopeRow>, row: ScopeRow, now: Instant, existing: seq<StateRow>,
                   prior: map<string, Status>, db: Tables, change: Option<Transition>, state: State)
    requires Crossing(r, rows, row.scope) == Some(row)
    requires Recalls(existing, db, r.id) && RecallsStatus(prior, db, r.id)
    requires state == State(Firing, row.value, now, state.firedAt, row.context)
    requires var was := row.scope in prior && prior[row.scope] == Firing;
      && change == (if was then None else Some(Transition(Fired, row.value, row.context, now)))
      && (was ==> WasCarriedOver(existing, row.scope, state.firedAt))
      && (!was ==> state.firedAt == Some(now))
    ensures var cell := CellOf(db, r.id, row.scope);
      Written(cell, change, state) == NextCell(cell, r, rows, now, row.scope)
  {
    assert row.scope in prior <==> StateAt(db.states, r.id, row.scope).Some?;
    if IsFiring(CellOf(db, r.id, row.scope)) {
      assert exists e :: e in existing && e.scope == row.scope;
    }
  }

  class Evaluator {
    const store: Store

    constructor (s: Store)
      ensures store == s
    {
      store := s;
    }

    method StatesForRule(id: int) returns (out: seq<StateRow>)
      requires InRange(store.Db())
      ensures forall row :: row in out <==> row in StateRows(store.Db()) && row.ruleId == id
    {
      var all := store.ListStates();
      out := [];
      for i := 0 to |all|
        invariant forall row :: row in out <==> row in all[..i] && row.ruleId == id
      {
        assert all[..i + 1] == all[..i] + [all[i]];
        if all[i].ruleId == id {
          out := out + [all[i]];
        }
      }
      assert all[..|all|] == all;
    }

    /** Other requests are served between any two statements; they cannot disturb what was written. */
    method Yield(ghost db: Tables, ghost want: (int, string) -> Cell, ghost inFlight: set<(int, string)>)
      requires InRange(db) && Becomes(db, store.Db(), want)
      requires Consistent(store.Db(), inFlight) && |inFlight| <= 1
      modifies store
      ensures Becomes(db, store.Db(), want)
      ensures Consistent(store.Db(), inFlight)
      ensures NoneRevived(old(store.Db()), store.Db())
    {
      ghost var before := store.Db();
      store.ServeApi(inFlight);
      BecomesThenStays(db, before, store.Db(), want);
    }

    method WriteEvent(id: int, scope: string, change: Transition, ghost db: Tables, ghost want: (int, string) -> Cell)
      requires InRange(db) && id < db.nextRule
      requires Becomes(db, store.Db(), want) && Consistent(store.Db(), {})
      modifies store
      ensures Becomes(db, store.Db(), Except(want, id, scope, WithChange(want(id, scope), change)))
      ensures Consistent(store.Db(), {(id, scope)})
      ensures id in store.rules ==> id in old(store.rules)
    {
      Yield(db, want, {});
      ghost var before := store.Db();
      store.AddEvent(id, scope, change);
      BecomesWithEvent(db, before, want, id, scope, change);
      EventKeepsOthers(before, id, scope, change);
    }

    method WriteState(id: int, scope: string, state: State, ghost inFlight: set<(int, string)>,
                      ghost db: Tables, ghost want: (int, string) -> Cell)
      requires InRange(db) && id < db.nextRule
      requires Becomes(db, store.Db(), want) && Consistent(store.Db(), inFlight) && inFlight <= {(id, scope)}
      requires id in store.rules ==> Coherent(want(id, scope).(state := Some(state)))
      modifies store
      ensures Becomes(db, store.Db(), Except(want, id, scope, want(id, scope).(state := Some(state))))
      ensures Consistent(store.Db(), {})
      ensures id in store.rules ==> id in old(store.rules)
    {
      AtMostOne(inFlight, (id, scope));
      Yield(db, want, inFlight);
      ghost var before := store.Db();
      store.UpsertState(id, scope, state);
      BecomesWithState(db, before, want, id, scope, state);
      StateKeepsOthers(before, id, scope, state, inFlight);
    }

    /** The two writes of a transition: its event, if there is one, and then the state row. */
    method Record(id: int, scope: string, change: Option<Transition>, state: State,
                  ghost db: Tables, ghost want: (int, string) -> Cell)
      requires InRange(db) && id < db.nextRule
      requires Becomes(db, store.Db(), want) && Consistent(store.Db(), {})
      requires id in store.rules ==> Coherent(Written(want(id, scope), change, state))
      modifies store
      ensures Becomes(db, store.Db(), Except(want, id, scope, Written(want(id, scope), change, state)))
      ensures Consistent(store.Db(), {})
      ensures id in store.rules ==> id in old(store.rules)
    {
      ghost var result := Except(want, id, scope, Written(want(id, scope), change, state));
      if change.Some? {
        WriteEvent(id, scope, change.value, db, want);
        ghost var mid := Except(want, id, scope, WithChange(want(id, scope), change.value));
        WriteState(id, scope, state, {(id, scope)}, db, mid);
        BecomesSame(db, store.Db(), Except(mid, id, scope, mid(id, scope).(state := Some(state))), result);
      } else {
        WriteState(id, scope, state, {}, db, want);
        BecomesSame(db, store.Db(), Except(want, id, scope, want(id, scope).(state := Some(state))), result);
      }
    }

    /** Written at `now` because the scope crosses the threshold, or still does. */
    method FireScope(r: Rule, row: ScopeRow, now: Instant, existing: seq<StateRow>, prior: map<string, Status>,
                     rows: seq<ScopeRow>, ghost db: Tables, ghost done: set<string>)
      requires Consistent(db, {}) && r.id < db.nextRule
      requires Consistent(store.Db(), {}) && Becomes(db, store.Db(), Halfway(db, r, rows, now, done))
      requires r.id in store.rules ==> Recalls(existing, db, r.id) && RecallsStatus(prior, db, r.id)
      requires Crossing(r, rows, row.scope) == Some(row) && row.scope !in done
      modifies store
      ensures Consistent(store.Db(), {})
      ensures Becomes(db, store.Db(), Halfway(db, r, rows, now, done + {row.scope}))
      ensures r.id in store.rules ==> r.id in old(store.rules)
    {
      var wasFiring := row.scope in prior && prior[row.scope] == Firing;
      var firedAt := Some(now);
      var change := None;
      if wasFiring {
        firedAt := CarriedOver(existing, row.scope);
      } else {
        change := Some(Transition(Fired, row.value, row.context, now));
      }
      var state := State(Firing, row.value, now, firedAt, row.context);
      if r.id in store.rules {
        FireIsNext(r, rows, row, now, existing, prior, db, change, state);
      }
      StepIsNext(r, rows, now, row.scope, change, state, db, store.Db(), done);
      Record(r.id, row.scope, change, state, db, Halfway(db, r, rows, now, done));
      StepExtends(r, rows, now, row.scope, change, state, db, store.Db(), done);
    }

    method ResolveScope(r: Rule, scope: string, now: Instant, rows: seq<ScopeRow>,
                        ghost db: Tables, ghost done: set<string>)
      requires Consistent(db, {}) && r.id < db.nextRule
      requires Consistent(store.Db(), {}) && Becomes(db, store.Db(), Halfway(db, r, rows, now, done))
      requires r.id in store.rules ==> IsFiring(CellOf(db, r.id, scope))
      requires Crossing(r, rows, scope).None? && scope !in done
      modifies store
      ensures Consistent(store.Db(), {})
      ensures Becomes(db, store.Db(), Halfway(db, r, rows, now, done + {scope}))
      ensures r.id in store.rules ==> r.id in old(store.rules)
    {
      var value := ValueOf(rows, scope);
      var change := Some(Transition(Resolved, value, NO_CONTEXT, now));
      var state := State(Ok, value, now, None, NO_CONTEXT);
      ghost var cell := CellOf(db, r.id, scope);
      assert r.id in store.rules ==> Written(cell, change, state) == NextCell(cell, r, rows, now, scope);
      StepIsNext(r, rows, now, scope, change, state, db, store.Db(), done);
      Record(r.id, scope, change, state, db, Halfway(db, r, rows, now, done));
      StepExtends(r, rows, now, scope, change, state, db, store.Db(), done);
    }

    /** The rule's state rows, read once and trusted for as long as the rule exists. */
    method ReadStates(id: int, ghost db: Tables) returns (existing: seq<StateRow>)
      requires Consistent(db, {}) && id < db.nextRule
      requires Consistent(store.Db(), {}) && Becomes(db, store.Db(), AsBefore(db))
      modifies store
      ensures Consistent(store.Db(), {}) && Becomes(db, store.Db(), AsBefore(db))
      ensures id in store.rules ==> Recalls(existing, db, id)
      ensures id in store.rules ==> id in old(store.rules)
    {
      Yield(db, AsBefore(db), {});
      existing := StatesForRule(id);
      RowsRecall(existing, store.Db(), db, id);
    }

    /**
      * One evaluation of one rule against the rows of its query, with any requests served between any two
      * statements: if the rule still exists afterwards, each of its scopes took exactly one step.
      */
    method EvaluateRule(r: Rule, rows: seq<ScopeRow>, now: Instant)
      requires Consistent(store.Db(), {}) && r.id < store.nextRule
      modifies store
      ensures Consistent(store.Db(), {})
      ensures Becomes(old(store.Db()), store.Db(), AllDone(old(store.Db()), r, rows, now))
    {
      ghost var db := store.Db();
      NothingHappened(db);
      var firing := FiringRows(r, rows);
      var existing := ReadStates(r.id, db);
      var prior := PriorStatus(existing);
      ghost var done := {};
      BecomesSame(db, store.Db(), AsBefore(db), Halfway(db, r, rows, now, done));
      done := FireAll(r, firing, now, existing, prior, rows, db);
      done := ResolveAll(r, firing, now, prior, rows, db);
      AllIsDone(r, rows, now, prior, db, store.Db(), done);
    }

    method FireAll(r: Rule, firing: map<string, ScopeRow>, now: Instant, existing: seq<StateRow>,
                   prior: map<string, Status>, rows: seq<ScopeRow>, ghost db: Tables) returns (ghost done: set<string>)
      requires Consistent(db, {}) && r.id < db.nextRule
      requires Consistent(store.Db(), {}) && Becomes(db, store.Db(), Halfway(db, r, rows, now, {}))
      requires r.id in store.rules ==> Recalls(existing, db, r.id) && RecallsStatus(prior, db, r.id)
      requires forall scope :: scope in firing ==> firing[scope].scope == scope
      requires forall scope :: scope in firing ==> Crossing(r, rows, scope) == Some(firing[scope])
      modifies store
      ensures Consistent(store.Db(), {})
      ensures done == firing.Keys && Becomes(db, store.Db(), Halfway(db, r, rows, now, done))
      ensures r.id in store.rules ==> r.id in old(store.rules)
    {
      var todo := firing.Keys;
      done := {};
      while todo != {}
        invariant todo <= firing.Keys && done == firing.Keys - todo
        invariant Consistent(store.Db(), {}) && Becomes(db, store.Db(), Halfway(db, r, rows, now, done))
        invariant r.id in store.rules ==> r.id in old(store.rules)
        decreases |todo|
      {
        var scope :| scope in todo;
        FireScope(r, firing[scope], now, existing, prior, rows, db, done);
        todo := todo - {scope};
        done := done + {scope};
      }
    }

    method ResolveAll(r: Rule, firing: map<string, ScopeRow>, now: Instant, prior: map<string, Status>,
                      rows: seq<ScopeRow>, ghost db: Tables) returns (ghost done: set<string>)
      requires Consistent(db, {}) && r.id < db.nextRule
      requires Consistent(store.Db(), {}) && Becomes(db, store.Db(), Halfway(db, r, rows, now, firing.Keys))
      requires r.id in store.rules ==> RecallsStatus(prior, db, r.id)
      requires forall scope :: scope !in firing ==> Crossing(r, rows, scope).None?
      modifies store
      ensures Consistent(store.Db(), {}) && Becomes(db, store.Db(), Halfway(db, r, rows, now, done))
      ensures firing.Keys <= done
      ensures forall scope :: scope in prior && prior[scope] == Firing ==> scope in done
      ensures r.id in store.rules ==> r.id in old(store.rules)
    {
      var todo := prior.Keys;
      done := firing.Keys;
      while todo != {}
        invariant todo <= prior.Keys && firing.Keys <= done && done * todo <= firing.Keys
        invariant forall scope :: scope in prior && prior[scope] == Firing ==> scope in done || scope in todo
        invariant Consistent(store.Db(), {}) && Becomes(db, store.Db(), Halfway(db, r, rows, now, done))
        invariant r.id in store.rules ==> r.id in old(store.rules)
        decreases |todo|
      {
        var scope :| scope in todo;
        todo := todo - {scope};
        if prior[scope] == Firing && scope !in firing {
          ResolveScope(r, scope, now, rows, db, done);
          done := done + {scope};
        }
      }
    }

    /** The turn of one rule of the listing. */
    method TickRule(r: Rule, world: World, ghost db: Tables, ghost done: set<int>)
      requires Consistent(db, {}) && Consistent(store.Db(), {}) && Becomes(db, store.Db(), Ticked(db, world, done))
      requires r.id in db.rules && db.rules[r.id] == r && r.id !in done
      modifies store
      ensures Consistent(store.Db(), {}) && Becomes(db, store.Db(), Ticked(db, world, done + {r.id}))
    {
      ghost var before := store.Db();
      if r.enabled && world.rows(r).Some? {
        EvaluateRule(r, world.rows(r).value, world.now(r));
        TickExtends(db, before, store.Db(), world, done, r);
      } else {
        TickSkips(db, before, world, done, r);
      }
    }

    /** The turns of all rules of the listing. */
    method TickRules(rules: seq<Rule>, world: World, ghost db: Tables)
      requires Consistent(db, {}) && IsOrdered(rules, RuleRows(db), (r: Rule) => (-r.id, 0))
      requires Consistent(store.Db(), {}) && Becomes(db, store.Db(), Ticked(db, world, {}))
      modifies store
      ensures Consistent(store.Db(), {}) && Becomes(db, store.Db(), Ticked(db, world, db.rules.Keys))
    {
      ghost var done := {};
      for i := 0 to |rules|
        invariant Consistent(store.Db(), {}) && Becomes(db, store.Db(), Ticked(db, world, done))
        invariant done == IdsOf(rules, i)
      {
        EachIdOnce(rules, db, i);
        TickRule(rules[i], world, db, done);
        NextId(rules, i);
        done := done + {rules[i].id};
      }
      AllRulesSeen(rules, db);
    }

    /**
      * One pass over the rules as they were when it began: every scope of an enabled rule takes one step,
      * every scope of a disabled rule none, and neither does a rule whose query failed.
      */
    method Tick(world: World)
      requires Consistent(store.Db(), {})
      modifies store
      ensures Consistent(store.Db(), {})
      ensures Becomes(old(store.Db()), store.Db(), Ticked(old(store.Db()), world, old(store.rules).Keys))
    {
      ghost var db := store.Db();
      NothingTicked(db, world);
      var rules := store.ListRules();
      TickRules(rules, world, db);
      Yield(db, Ticked(db, world, db.rules.Keys), {});
    }

    /** The evaluation loop, once at start and then at every tick of the clock. */
    method Run(worlds: seq<World>)
      requires Consistent(store.Db(), {})
      modifies store
      ensures Consistent(store.Db(), {})
      ensures HistoriesGrow(old(store.Db()), store.Db())
    {
      ghost var db := store.Db();
      for i := 0 to |worlds|
        invariant Consistent(store.Db(), {}) && HistoriesGrow(db, store.Db())
      {
        ghost var before := store.Db();
        Tick(worlds[i]);
        TickGrows(before, store.Db(), worlds[i]);
        GrowsTransitively(db, before, store.Db());
      }
    }
  }
}
