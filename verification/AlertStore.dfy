/** The three alert tables (rules, states, events) and every statement issued against them. */
module AlertStore {
  import opened Wrappers
  import SqlText

  /** RFC 3339 seconds in UTC sort as text exactly as the instants they name. */
  type Instant = nat

  datatype Filters = Filters(
    minSent: int, minLoss: real, srcAsn: int, dstAsn: int, probeId: int, targetIp: string)

  datatype Rule = Rule(
    id: int, name: string, metric: string, comparison: string, threshold: real, scope: string,
    filters: Filters, windowMin: int, enabled: bool, createdAt: Instant, updatedAt: Instant)

  datatype RuleError = NameRequired | InvalidMetric | InvalidScope | InvalidComparison | ThresholdOutOfRange

  datatype Status = Firing | Ok

  /** A row of alert_states without its key; `firedAt` is the nullable column. */
  datatype State = State(status: Status, value: real, lastEvalAt: Instant, firedAt: Option<Instant>, context: string)

  datatype Kind = Fired | Resolved

  datatype Transition = Transition(kind: Kind, value: real, context: string, ts: Instant)

  datatype Event = Event(id: int, ruleId: int, scope: string, change: Transition)

  // ---- rules ---------------------------------------------------------------------------

  function Compare(comparison: string, value: real, threshold: real): bool {
    if comparison == ">" then value > threshold
    else if comparison == ">=" then value >= threshold
    else if comparison == "<" then value < threshold
    else if comparison == "<=" then value <= threshold
    else if comparison == "==" then value == threshold
    else false
  }

  const METRICS: set<string> := {"loss_ratio", "avg_rtt_ms", "target_lost"}
  const SCOPES: set<string> := {"probe_target", "asn_pair", "target", "asn_dst"}
  const COMPARISONS: set<string> := {">", ">=", "<", "<=", "=="}

  function Validate(r: Rule): (error: Option<RuleError>) {
    if SqlText.TrimSpace(r.name) == "" then Some(NameRequired)
    else if r.metric !in METRICS then Some(InvalidMetric)
    else if r.scope !in SCOPES then Some(InvalidScope)
    else if r.comparison !in COMPARISONS then Some(InvalidComparison)
    else if r.metric == "avg_rtt_ms" then
      if r.threshold < 0.0 then Some(ThresholdOutOfRange) else None
    else if r.threshold < 0.0 || r.threshold > 100.0 then Some(ThresholdOutOfRange) else None
  }

  /**
    * The comparisons a rule may be saved with are exactly those that some metric value can fire, and
    * each of them also has a value that resolves it.
    */
  lemma SavedComparisonsDecide(comparison: string, threshold: real)
    ensures comparison in COMPARISONS <==> exists v: real :: Compare(comparison, v, threshold)
    ensures exists v: real :: !Compare(comparison, v, threshold)
  {
    assert comparison in {">", ">="} ==> Compare(comparison, threshold + 1.0, threshold);
    assert comparison in {"<", "<="} ==> Compare(comparison, threshold - 1.0, threshold);
    assert comparison == "==" ==> Compare(comparison, threshold, threshold);
    assert comparison in {">", ">=", "=="} ==> !Compare(comparison, threshold - 1.0, threshold);
    assert comparison !in {">", ">=", "=="} ==> !Compare(comparison, threshold + 1.0, threshold);
  }

  /** What each comparison says of a value below, at and above its threshold; any other one says no. */
  lemma ComparisonsAsNamed(comparison: string, value: real, threshold: real)
    ensures value < threshold ==> (Compare(comparison, value, threshold) <==> comparison in {"<", "<="})
    ensures value == threshold ==> (Compare(comparison, value, threshold) <==> comparison in {"<=", "==", ">="})
    ensures value > threshold ==> (Compare(comparison, value, threshold) <==> comparison in {">", ">="})
  {
  }

  /** Known metric, scope and comparison, and a threshold in range; only a round-trip time may exceed 100. */
  predicate HasValidSettings(r: Rule) {
    && r.metric in {"loss_ratio", "avg_rtt_ms", "target_lost"}
    && r.scope in {"probe_target", "asn_pair", "target", "asn_dst"}
    && r.comparison in {">", ">=", "<", "<=", "=="}
    && 0.0 <= r.threshold && (r.metric != "avg_rtt_ms" ==> r.threshold <= 100.0)
  }

  lemma SettingsDecide(r: Rule)
    requires SqlText.TrimSpace(r.name) != ""
    ensures Validate(r).None? <==> HasValidSettings(r)
  {
  }

  /** A rule may be saved exactly when its name is not blank and its settings are valid. */
  lemma RuleIsValidExactly(r: Rule)
    ensures Validate(r).None? <==> !SqlText.IsBlank(r.name) && HasValidSettings(r)
  {
    SqlText.BlankExactly(r.name);
    if SqlText.TrimSpace(r.name) != "" {
      SettingsDecide(r);
    }
  }

  // ---- tables --------------------------------------------------------------------------

  /** AUTOINCREMENT hands out `nextRule` and `nextEvent` and never a number below them. */
  datatype Tables = Tables(
    rules: map<int, Rule>, nextRule: int, states: map<(int, string), State>, events: seq<Event>, nextEvent: int)

  /** What the tables hold about one scope of one rule. */
  datatype Cell = Cell(state: Option<State>, history: seq<Transition>)

  const BLANK := Cell(None, [])

  /** The transitions recorded for one scope of one rule, in id order. */
  function History(events: seq<Event>, id: int, scope: string): seq<Transition>
    decreases |events|
  {
    if events == [] then []
    else
      var last := events[|events| - 1];
      History(events[..|events| - 1], id, scope)
      + if last.ruleId == id && last.scope == scope then [last.change] else []
  }

  function StateAt(states: map<(int, string), State>, id: int, scope: string): Option<State> {
    if (id, scope) in states then Some(states[(id, scope)]) else None
  }

  function CellOf(db: Tables, id: int, scope: string): Cell {
    Cell(StateAt(db.states, id, scope), History(db.events, id, scope))
  }

  function EventsWithout(events: seq<Event>, id: int): (rest: seq<Event>)
    ensures forall e :: e in rest <==> e in events && e.ruleId != id
    decreases |events|
  {
    if events == [] then []
    else
      var last := events[|events| - 1];
      EventsWithout(events[..|events| - 1], id) + if last.ruleId != id then [last] else []
  }

  function Erased(db: Tables, id: int): Tables {
    db.(rules := db.rules - {id},
        states := map k | k in db.states && k.0 != id :: db.states[k],
        events := EventsWithout(db.events, id))
  }

  function WithEvent(db: Tables, id: int, scope: string, change: Transition): Tables {
    db.(events := db.events + [Event(db.nextEvent, id, scope, change)], nextEvent := db.nextEvent + 1)
  }

  function WithState(db: Tables, id: int, scope: string, state: State): Tables {
    db.(states := db.states[(id, scope) := state])
  }

  /** Every id in use was handed out, rules are stored under their id, and events lie in id order. */
  ghost predicate InRange(db: Tables) {
    && (forall id :: id in db.rules ==> id < db.nextRule && db.rules[id].id == id && Validate(db.rules[id]).None?)
    && (forall k :: k in db.states ==> k.0 < db.nextRule)
    && (forall e :: e in db.events ==> e.ruleId < db.nextRule && e.id < db.nextEvent)
    && Ascending(db.events)
  }

  ghost predicate Ascending(events: seq<Event>) {
    forall i, j :: 0 <= i < j < |events| ==> events[i].id < events[j].id
  }

  lemma {:induction false} EraseKeepsOrder(events: seq<Event>, id: int)
    requires Ascending(events)
    ensures Ascending(EventsWithout(events, id))
    decreases |events|
  {
    if events != [] {
      var init, last := events[..|events| - 1], events[|events| - 1];
      EraseKeepsOrder(init, id);
      var kept := EventsWithout(init, id);
      forall i | 0 <= i < |kept| ensures kept[i].id < last.id {
        assert kept[i] in kept;
        assert kept[i] in init;
      }
      assert Ascending(kept + [last]);
    }
  }

  lemma {:induction false} EraseKeepsOthers(events: seq<Event>, id: int, other: int, scope: string)
    ensures History(EventsWithout(events, id), other, scope) ==
            if other == id then [] else History(events, other, scope)
    decreases |events|
  {
    if events != [] {
      var init, last := events[..|events| - 1], events[|events| - 1];
      EraseKeepsOthers(init, id, other, scope);
      if last.ruleId != id {
        assert EventsWithout(events, id)[..|EventsWithout(init, id)|] == EventsWithout(init, id);
      } else {
        assert EventsWithout(events, id) == EventsWithout(init, id);
      }
    }
  }

  /** Deleting a rule forgets all its scopes and leaves those of every other rule as they were. */
  lemma EraseIsExact(db: Tables, id: int, other: int, scope: string)
    ensures CellOf(Erased(db, id), other, scope) == if other == id then BLANK else CellOf(db, other, scope)
  {
    EraseKeepsOthers(db.events, id, other, scope);
  }

  lemma EventAddsToOneCell(db: Tables, id: int, scope: string, change: Transition, other: int, at: string)
    ensures CellOf(WithEvent(db, id, scope, change), other, at) ==
      var was := CellOf(db, other, at);
      if other == id && at == scope then was.(history := was.history + [change]) else was
  {
    var added := WithEvent(db, id, scope, change).events;
    assert added[..|added| - 1] == db.events;
  }

  /** A scope nobody has written to: its rule has never been given out. */
  lemma {:induction false} UnusedIsBlank(db: Tables, id: int, scope: string)
    requires InRange(db) && db.nextRule <= id
    ensures CellOf(db, id, scope) == BLANK
  {
    NoHistory(db.events, id, scope);
  }

  lemma {:induction false} NoHistory(events: seq<Event>, id: int, scope: string)
    requires forall e :: e in events ==> e.ruleId != id
    ensures History(events, id, scope) == []
    decreases |events|
  {
    if events != [] {
      assert events[|events| - 1] in events;
      NoHistory(events[..|events| - 1], id, scope);
    }
  }

  // ---- what a scope may look like --------------------------------------------------------

  predicate IsFiring(c: Cell) {
    c.state.Some? && c.state.value.status == Firing
  }

  predicate EndsFired(h: seq<Transition>) {
    h != [] && h[|h| - 1].kind == Fired
  }

  /** When the episode that is still going on began. */
  function Since(h: seq<Transition>): Option<Instant> {
    if EndsFired(h) then Some(h[|h| - 1].ts) else None
  }

  /** fired, resolved, fired, ... starting with fired */
  predicate Alternates(h: seq<Transition>) {
    && (h != [] ==> h[0].kind == Fired)
    && forall i :: 0 < i < |h| ==> h[i].kind != h[i - 1].kind
  }

  /** State and history tell the same story. */
  predicate Coherent(c: Cell) {
    && Alternates(c.history)
    && (c.state.None? <==> c.history == [])
    && (IsFiring(c) <==> EndsFired(c.history))
    && (c.state.Some? ==> c.state.value.firedAt == Since(c.history))
  }

  /** Every scope of every existing rule is coherent, but for those being written right now. */
  ghost predicate Consistent(db: Tables, inFlight: set<(int, string)>) {
    && InRange(db)
    && forall id, scope :: id in db.rules && (id, scope) !in inFlight ==> Coherent(CellOf(db, id, scope))
  }

  // ---- what can happen to the tables -------------------------------------------------------

  /**
    * From `before` to `after` no deleted rule came back, a rule created on the way is untouched, and each
    * scope of a rule that exists in both looks as `want` says.
    */
  ghost predicate Becomes(before: Tables, after: Tables, want: (int, string) -> Cell) {
    && before.nextRule <= after.nextRule
    && (forall id :: id in after.rules && id < before.nextRule ==> id in before.rules)
    && (forall id, scope :: id in after.rules && id in before.rules ==> CellOf(after, id, scope) == want(id, scope))
    && (forall id, scope :: id in after.rules && id !in before.rules ==> CellOf(after, id, scope) == BLANK)
  }

  ghost function AsBefore(db: Tables): (int, string) -> Cell {
    (id, scope) => CellOf(db, id, scope)
  }

  /** `want` everywhere but at one scope. */
  ghost function Except(want: (int, string) -> Cell, id: int, scope: string, c: Cell): (int, string) -> Cell {
    (i, s) => if i == id && s == scope then c else want(i, s)
  }

  lemma BecomesSame(db: Tables, after: Tables, want: (int, string) -> Cell, instead: (int, string) -> Cell)
    requires Becomes(db, after, want)
    requires forall id, scope :: id in after.rules && id in db.rules ==> want(id, scope) == instead(id, scope)
    ensures Becomes(db, after, instead)
  {}

  lemma BecomesThenStays(a: Tables, b: Tables, c: Tables, want: (int, string) -> Cell)
    requires InRange(a) && InRange(b) && InRange(c)
    requires Becomes(a, b, want) && Becomes(b, c, AsBefore(b))
    ensures Becomes(a, c, want)
  {
    forall id, scope | id in c.rules
      ensures CellOf(c, id, scope) == if id in a.rules then want(id, scope) else BLANK
    {
      if id in b.rules {
        assert CellOf(c, id, scope) == CellOf(b, id, scope);
      } else {
        assert b.nextRule <= id;
        assert id !in a.rules;
      }
    }
  }

  lemma EventStaysInRange(db: Tables, id: int, scope: string, change: Transition)
    requires InRange(db) && id < db.nextRule
    ensures InRange(WithEvent(db, id, scope, change))
  {
    var added := Event(db.nextEvent, id, scope, change);
    assert forall i :: 0 <= i < |db.events| ==> db.events[i] in db.events;
    assert forall e :: e in db.events + [added] <==> e in db.events || e == added;
  }

  lemma BecomesWithEvent(a: Tables, b: Tables, want: (int, string) -> Cell, id: int, scope: string, change: Transition)
    requires InRange(a) && InRange(b) && Becomes(a, b, want) && id < a.nextRule
    ensures InRange(WithEvent(b, id, scope, change))
    ensures var c := want(id, scope);
      Becomes(a, WithEvent(b, id, scope, change), Except(want, id, scope, c.(history := c.history + [change])))
  {
    var after := WithEvent(b, id, scope, change);
    EventStaysInRange(b, id, scope, change);
    forall i, s | i in after.rules
      ensures CellOf(after, i, s) ==
        var was := CellOf(b, i, s);
        if i == id && s == scope then was.(history := was.history + [change]) else was
    {
      EventAddsToOneCell(b, id, scope, change, i, s);
    }
  }

  lemma BecomesWithState(a: Tables, b: Tables, want: (int, string) -> Cell, id: int, scope: string, state: State)
    requires InRange(a) && InRange(b) && Becomes(a, b, want) && id < a.nextRule
    ensures InRange(WithState(b, id, scope, state))
    ensures Becomes(a, WithState(b, id, scope, state),
                    Except(want, id, scope, want(id, scope).(state := Some(state))))
  {
    var after := WithState(b, id, scope, state);
    forall i, s | i in after.rules
      ensures CellOf(after, i, s) ==
        var was := CellOf(b, i, s);
        if i == id && s == scope then was.(state := Some(state)) else was
    {}
  }

  lemma BecomesConsistent(a: Tables, b: Tables, want: (int, string) -> Cell, inFlight: set<(int, string)>)
    requires InRange(b) && Becomes(a, b, want)
    requires forall id, scope ::
      id in a.rules && id in b.rules && (id, scope) !in inFlight ==> Coherent(want(id, scope))
    ensures Consistent(b, inFlight)
  {}

  lemma NothingHappened(db: Tables)
    ensures Becomes(db, db, AsBefore(db))
  {}

  // ---- queries ---------------------------------------------------------------------------

  datatype StateRow = StateRow(ruleId: int, ruleName: string, scope: string, state: State)

  datatype EventRow = EventRow(ruleName: string, event: Event)

  datatype ActiveRow = ActiveRow(ruleId: int, ruleName: string, scope: string, value: real, ts: Option<Instant>)

  predicate Above(a: (int, int), b: (int, int)) {
    a.0 > b.0 || (a.0 == b.0 && a.1 > b.1)
  }

  /** Each of `rows` once, highest rank first. */
  ghost predicate IsOrdered<T(!new)>(out: seq<T>, rows: set<T>, rank: T -> (int, int)) {
    && (forall x :: x in out <==> x in rows)
    && (forall i, j :: 0 <= i < j < |out| ==> out[i] != out[j] && !Above(rank(out[j]), rank(out[i])))
  }

  ghost predicate IsTop<T(!new)>(top: T, rows: set<T>, rank: T -> (int, int)) {
    top in rows && forall x :: x in rows ==> !Above(rank(x), rank(top))
  }

  lemma {:induction false} SomeRowIsTop<T(!new)>(rows: set<T>, rank: T -> (int, int))
    requires rows != {}
    ensures exists top :: IsTop(top, rows, rank)
    decreases |rows|
  {
    var x :| x in rows;
    if rows == {x} {
      assert IsTop(x, rows, rank);
    } else {
      SomeRowIsTop(rows - {x}, rank);
      var top :| IsTop(top, rows - {x}, rank);
      if Above(rank(x), rank(top)) {
        assert IsTop(x, rows, rank);
      } else {
        assert IsTop(top, rows, rank);
      }
    }
  }

  method OrderBy<T(!new, ==)>(rows: set<T>, rank: T -> (int, int)) returns (out: seq<T>)
    ensures IsOrdered(out, rows, rank)
  {
    var rest := rows;
    out := [];
    while rest != {}
      invariant rest <= rows
      invariant IsOrdered(out, rows - rest, rank)
      invariant forall x, y :: x in out && y in rest ==> !Above(rank(y), rank(x))
      decreases |rest|
    {
      SomeRowIsTop(rest, rank);
      var top :| top in rest && forall x :: x in rest ==> !Above(rank(x), rank(top));
      assert forall x :: x in rows - (rest - {top}) <==> x in rows - rest || x == top;
      out := out + [top];
      rest := rest - {top};
    }
    assert rows - rest == rows;
  }

  function RuleRows(db: Tables): set<Rule> {
    set id | id in db.rules :: db.rules[id]
  }

  function StateRows(db: Tables): set<StateRow>
    requires InRange(db)
  {
    set k | k in db.states && k.0 in db.rules :: StateRow(k.0, db.rules[k.0].name, k.1, db.states[k])
  }

  function EventRows(db: Tables): set<EventRow>
    requires InRange(db)
  {
    set e | e in db.events && e.ruleId in db.rules :: EventRow(db.rules[e.ruleId].name, e)
  }

  function ActiveRows(db: Tables): set<ActiveRow>
    requires InRange(db)
  {
    set k | k in db.states && k.0 in db.rules && db.states[k].status == Firing ::
      ActiveRow(k.0, db.rules[k.0].name, k.1, db.states[k].value, db.states[k].firedAt)
  }

  function EventLimit(limit: int): int {
    if limit <= 0 || limit > 1000 then 100 else limit
  }

  /** The first `limit` rows of some listing of all rows. */
  ghost predicate IsLatest(out: seq<EventRow>, db: Tables, limit: int)
    requires InRange(db)
  {
    exists all :: IsOrdered(all, EventRows(db), (r: EventRow) => (r.event.change.ts, 0))
                  && out == if |all| <= EventLimit(limit) then all else all[..EventLimit(limit)]
  }

  /**
    * Events of existing rules with the names of those, latest first; one is left out only when `limit` others
    * are shown, none of them earlier. A limit outside 1 to 1000 means 100.
    */
  ghost predicate ShowsLatest(out: seq<EventRow>, db: Tables, limit: int) {
    var most := if 1 <= limit <= 1000 then limit else 100;
    && |out| <= most
    && (forall row :: row in out ==>
          row.event in db.events && row.event.ruleId in db.rules && row.ruleName == db.rules[row.event.ruleId].name)
    && (forall i, j :: 0 <= i < j < |out| ==> out[i] != out[j] && out[i].event.change.ts >= out[j].event.change.ts)
    && (forall e :: e in db.events && e.ruleId in db.rules && EventRow(db.rules[e.ruleId].name, e) !in out ==>
          |out| == most && forall row :: row in out ==> row.event.change.ts >= e.change.ts)
  }

  lemma LatestAreShown(all: seq<EventRow>, db: Tables, limit: int, out: seq<EventRow>, most: nat)
    requires InRange(db) && IsOrdered(all, EventRows(db), (r: EventRow) => (r.event.change.ts, 0))
    requires most == EventLimit(limit) && out == all[..Min(most, |all|)]
    ensures ShowsLatest(out, db, limit)
  {
    LatestFirst(all, EventRows(db));
    ShownAreEvents(all, db, out);
    forall e | e in db.events && e.ruleId in db.rules && EventRow(db.rules[e.ruleId].name, e) !in out
      ensures |out| == most && forall row :: row in out ==> row.event.change.ts >= e.change.ts
    {
      var x := EventRow(db.rules[e.ruleId].name, e);
      assert x in EventRows(db);
      LeftOutIsEarlier(all, |out|, x);
    }
  }

  lemma ShownAreEvents(all: seq<EventRow>, db: Tables, out: seq<EventRow>)
    requires InRange(db) && out <= all && forall row :: row in all ==> row in EventRows(db)
    ensures forall row :: row in out ==>
      row.event in db.events && row.event.ruleId in db.rules && row.ruleName == db.rules[row.event.ruleId].name
  {
    assert forall row :: row in out ==> row in all;
  }

  lemma LatestFirst(all: seq<EventRow>, rows: set<EventRow>)
    requires IsOrdered(all, rows, (r: EventRow) => (r.event.change.ts, 0))
    ensures forall i, j :: 0 <= i < j < |all| ==>
      all[i] != all[j] && all[i].event.change.ts >= all[j].event.change.ts
  {
  }

  lemma LeftOutIsEarlier(all: seq<EventRow>, n: nat, x: EventRow)
    requires forall i, j :: 0 <= i < j < |all| ==> all[i].event.change.ts >= all[j].event.change.ts
    requires n <= |all| && x in all && x !in all[..n]
    ensures n < |all| && forall row :: row in all[..n] ==> row.event.change.ts >= x.event.change.ts
  {
    var j :| 0 <= j < |all| && all[j] == x;
    assert forall k :: 0 <= k < n ==> all[..n][k] == all[k] && all[k] in all[..n];
  }

  // ---- the store -------------------------------------------------------------------------

  class Store {
    var rules: map<int, Rule>
    var nextRule: int
    var states: map<(int, string), State>
    var events: seq<Event>
    var nextEvent: int

    function Db(): Tables
      reads this
    {
      Tables(rules, nextRule, states, events, nextEvent)
    }

    constructor ()
      ensures Consistent(Db(), {}) && rules == map[]
    {
      rules, nextRule, states, events, nextEvent := map[], 1, map[], [], 1;
    }

    method CreateRule(r: Rule, now: Instant) returns (result: Result<Rule, RuleError>)
      requires InRange(Db())
      modifies this
      ensures result.Failure? <==> Validate(r).Some?
      ensures result.Failure? ==> Validate(r) == Some(result.error) && Db() == old(Db())
      ensures result.Success? ==>
        && result.value == r.(id := old(nextRule), createdAt := now, updatedAt := now)
        && Db() == old(Db()).(rules := old(rules)[old(nextRule) := result.value], nextRule := old(nextRule) + 1)
      ensures InRange(Db()) && Becomes(old(Db()), Db(), AsBefore(old(Db())))
    {
      var error := Validate(r);
      if error.Some? {
        return Failure(error.value);
      }
      var created := r.(id := nextRule, createdAt := now, updatedAt := now);
      ghost var before := Db();
      rules := rules[nextRule := created];
      nextRule := nextRule + 1;
      NewRuleIsBlank(before, Db(), created);
      return Success(created);
    }

    method UpdateRule(id: int, r: Rule, now: Instant) returns (result: Result<Rule, RuleError>)
      requires InRange(Db())
      modifies this
      ensures result.Failure? <==> Validate(r).Some?
      ensures result.Failure? ==> Validate(r) == Some(result.error) && Db() == old(Db())
      ensures result.Success? ==>
        && result.value == r.(id := id, updatedAt := now,
                              createdAt := if id in old(rules) then old(rules)[id].createdAt else r.createdAt)
        && Db() == old(Db()).(rules := if id in old(rules) then old(rules)[id := result.value] else old(rules))
      ensures InRange(Db()) && Becomes(old(Db()), Db(), AsBefore(old(Db())))
    {
      var error := Validate(r);
      if error.Some? {
        return Failure(error.value);
      }
      if id in rules {
        ReplacedStaysInRange(Db(), r.(id := id, createdAt := rules[id].createdAt, updatedAt := now));
        rules := rules[id := r.(id := id, createdAt := rules[id].createdAt, updatedAt := now)];
      }
      if id in rules {
        return Success(rules[id]);
      }
      return Success(r.(id := id, updatedAt := now));
    }

    method DeleteRule(id: int)
      requires InRange(Db())
      modifies this
      ensures Db() == Erased(old(Db()), id)
      ensures InRange(Db()) && Becomes(old(Db()), Db(), AsBefore(old(Db()))) && id !in rules
    {
      ghost var before := Db();
      rules := rules - {id};
      states := map k | k in states && k.0 != id :: states[k];
      events := EventsWithout(events, id);
      EraseOthersStay(before, id);
    }

    /**
      * Whatever requests the API serves between two statements of the evaluator: any number of rules
      * created, replaced, enabled, disabled or deleted.
      */
    method ServeApi(ghost inFlight: set<(int, string)>)
      requires Consistent(Db(), inFlight) && |inFlight| <= 1
      modifies this
      ensures Consistent(Db(), inFlight)
      ensures Becomes(old(Db()), Db(), AsBefore(old(Db())))
    {
      var requests: nat := *;
      ghost var start := Db();
      NothingHappened(start);
      while requests > 0
        invariant InRange(Db()) && Becomes(start, Db(), AsBefore(start))
      {
        ghost var before := Db();
        var id: int, r: Rule, now: Instant := *, *, *;
        if {
          case true => var _ := CreateRule(r, now);
          case true => var _ := UpdateRule(id, r, now);
          case true => DeleteRule(id);
        }
        BecomesThenStays(start, before, Db(), AsBefore(start));
        requests := requests - 1;
      }
      BecomesConsistent(start, Db(), AsBefore(start), inFlight);
    }

    method ListRules() returns (out: seq<Rule>)
      ensures IsOrdered(out, RuleRows(Db()), (r: Rule) => (-r.id, 0))
    {
      out := OrderBy(RuleRows(Db()), (r: Rule) => (-r.id, 0));
    }

    method ListStates() returns (out: seq<StateRow>)
      requires InRange(Db())
      ensures IsOrdered(out, StateRows(Db()),
                        (r: StateRow) => (if r.state.status == Ok then 1 else 0, r.state.lastEvalAt))
    {
      out := OrderBy(StateRows(Db()), (r: StateRow) => (if r.state.status == Ok then 1 else 0, r.state.lastEvalAt));
    }

    method ListEvents(limit: int) returns (out: seq<EventRow>)
      requires InRange(Db())
      ensures IsLatest(out, Db(), limit) && ShowsLatest(out, Db(), limit)
    {
      out := OrderBy(EventRows(Db()), (r: EventRow) => (r.event.change.ts, 0));
      ghost var all := out;
      if |out| > EventLimit(limit) {
        out := out[..EventLimit(limit)];
      }
      LatestAreShown(all, Db(), limit, out, EventLimit(limit));
    }

    /** The active-alert ticker shows exactly the open episodes, each with the moment it began. */
    method ListActiveEvents(ghost inFlight: set<(int, string)>) returns (out: seq<ActiveRow>)
      requires Consistent(Db(), inFlight)
      ensures IsOrdered(out, ActiveRows(Db()), (r: ActiveRow) => (if r.ts.Some? then r.ts.value else -1, 0))
      ensures ShowsOpenEpisodes(out, Db(), inFlight)
    {
      out := OrderBy(ActiveRows(Db()), (r: ActiveRow) => (if r.ts.Some? then r.ts.value else -1, 0));
      ActiveIsOpen(Db(), inFlight, out);
    }

    method AddEvent(id: int, scope: string, change: Transition)
      modifies this
      ensures Db() == WithEvent(old(Db()), id, scope, change)
    {
      events := events + [Event(nextEvent, id, scope, change)];
      nextEvent := nextEvent + 1;
    }

    method UpsertState(id: int, scope: string, state: State)
      modifies this
      ensures Db() == WithState(old(Db()), id, scope, state)
    {
      states := states[(id, scope) := state];
    }
  }

  ghost predicate ShowsOpenEpisodes(out: seq<ActiveRow>, db: Tables, inFlight: set<(int, string)>) {
    && (forall row :: row in out ==> row.ruleId in db.rules)
    && forall id, scope :: (id, scope) !in inFlight && id in db.rules ==>
         var h := History(db.events, id, scope);
         && (EndsFired(h) <==> exists row :: row in out && row.ruleId == id && row.scope == scope)
         && (forall row :: row in out && row.ruleId == id && row.scope == scope ==>
               && row.ts == Since(h) && row.ruleName == db.rules[id].name
               && (id, scope) in db.states && row.value == db.states[(id, scope)].value)
  }

  lemma ActiveIsOpen(db: Tables, inFlight: set<(int, string)>, out: seq<ActiveRow>)
    requires Consistent(db, inFlight)
    requires forall row :: row in out <==> row in ActiveRows(db)
    ensures ShowsOpenEpisodes(out, db, inFlight)
  {
    forall id, scope | (id, scope) !in inFlight && id in db.rules
      ensures var h := History(db.events, id, scope);
        && (EndsFired(h) <==> exists row :: row in out && row.ruleId == id && row.scope == scope)
        && (forall row :: row in out && row.ruleId == id && row.scope == scope ==>
              && row.ts == Since(h) && row.ruleName == db.rules[id].name
              && (id, scope) in db.states && row.value == db.states[(id, scope)].value)
    {
      var c := CellOf(db, id, scope);
      assert Coherent(c);
      if IsFiring(c) {
        var s := db.states[(id, scope)];
        assert ActiveRow(id, db.rules[id].name, scope, s.value, s.firedAt) in ActiveRows(db);
      }
    }
  }

  lemma NewRuleIsBlank(db: Tables, after: Tables, r: Rule)
    requires InRange(db) && Validate(r).None? && r.id == db.nextRule
    requires after == db.(rules := db.rules[r.id := r], nextRule := db.nextRule + 1)
    ensures InRange(after) && Becomes(db, after, AsBefore(db))
  {
    forall scope ensures CellOf(after, r.id, scope) == BLANK {
      UnusedIsBlank(db, r.id, scope);
    }
  }

  lemma ReplacedStaysInRange(db: Tables, r: Rule)
    requires InRange(db) && r.id in db.rules && Validate(r).None?
    ensures var after := db.(rules := db.rules[r.id := r]); InRange(after) && Becomes(db, after, AsBefore(db))
  {
    var after := db.(rules := db.rules[r.id := r]);
    forall id | id in after.rules
      ensures id < after.nextRule && after.rules[id].id == id && Validate(after.rules[id]).None?
    {
      assert id in db.rules;
    }
    assert forall id, scope :: CellOf(after, id, scope) == CellOf(db, id, scope);
  }

  lemma EraseKeepsRange(db: Tables, id: int)
    requires InRange(db)
    ensures InRange(Erased(db, id))
  {
    EraseKeepsOrder(db.events, id);
  }

  lemma EraseOthersStay(db: Tables, id: int)
    requires InRange(db)
    ensures InRange(Erased(db, id)) && Becomes(db, Erased(db, id), AsBefore(db))
  {
    var after := Erased(db, id);
    EraseKeepsRange(db, id);
    forall other, scope | other in after.rules ensures CellOf(after, other, scope) == CellOf(db, other, scope) {
      EraseIsExact(db, id, other, scope);
    }
  }
}
