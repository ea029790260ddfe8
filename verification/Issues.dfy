/** Deduplicating, ranking and cutting off the list of operational issues. */
module Issues {
  import opened Sequences
  import opened Wrappers

  datatype Issue = Issue(id: string, kind: string, severity: string, title: string, lossPct: real,
                         sampleCount: int, lastSeen: int, source: string)

  const MIN_PROBES := 3
  const CRITICAL_LOSS := 80.0
  const HIGH_LOSS := 20.0

  predicate IsAlert(i: Issue) {
    i.source == "alert"
  }

  // ---- severities -------------------------------------------------------------------

  /** One of the severities that are ever assigned. */
  predicate IsSeverity(s: string) {
    s == "critical" || s == "high" || s == "watch"
  }

  function SeverityFromLoss(lossPct: real, probes: int): (s: string)
    ensures IsSeverity(s)
    ensures s == "critical" <==> lossPct >= 80.0 && probes >= 3
    ensures s == "watch" <==> lossPct < 20.0
  {
    if lossPct >= CRITICAL_LOSS && probes >= MIN_PROBES then "critical"
    else if lossPct >= HIGH_LOSS then "high"
    else if lossPct > 0.0 then "watch"
    else "watch"
  }

  function SevRank(s: string): nat {
    if s == "critical" then 0 else if s == "high" then 1 else if s == "watch" then 2 else 3
  }

  // ---- the ranking order ------------------------------------------------------------------

  /** Byte-wise order of strings. */
  predicate StringLess(a: string, b: string) {
    if b == "" then false
    else if a == "" then true
    else if a[0] != b[0] then a[0] < b[0]
    else StringLess(a[1..], b[1..])
  }

  predicate IssueLess(a: Issue, b: Issue) {
    if IsAlert(a) != IsAlert(b) then IsAlert(a)
    else if a.severity != b.severity then SevRank(a.severity) < SevRank(b.severity)
    else if a.sampleCount != b.sampleCount then a.sampleCount > b.sampleCount
    else if a.lastSeen != b.lastSeen then a.lastSeen > b.lastSeen
    else StringLess(a.id, b.id)
  }

  lemma {:induction false} StringsCompare(a: string, b: string)
    ensures a == b ==> !StringLess(a, b)
    ensures a != b ==> (StringLess(a, b) <==> !StringLess(b, a))
    decreases |a|
  {
    if a != "" && b != "" && a[0] == b[0] {
      StringsCompare(a[1..], b[1..]);
      assert a == [a[0]] + a[1..] && b == [b[0]] + b[1..];
    }
  }

  lemma {:induction false} StringLessTransitive(a: string, b: string, c: string)
    requires StringLess(a, b) && StringLess(b, c)
    ensures StringLess(a, c)
    decreases |a|
  {
    if a != "" && a[0] == b[0] && b[0] == c[0] {
      StringLessTransitive(a[1..], b[1..], c[1..]);
    }
  }

  /** Two different issues are left unordered exactly when their severities are different and both unknown. */
  lemma OrderedUnlessUnknown(a: Issue, b: Issue)
    requires a.id != b.id
    ensures !(IssueLess(a, b) && IssueLess(b, a))
    ensures !IssueLess(a, b) && !IssueLess(b, a) <==>
      IsAlert(a) == IsAlert(b) && a.severity != b.severity && !IsSeverity(a.severity) && !IsSeverity(b.severity)
  {
    StringsCompare(a.id, b.id);
  }

  lemma IssueLessTransitive(a: Issue, b: Issue, c: Issue)
    requires IssueLess(a, b) && IssueLess(b, c)
    ensures IssueLess(a, c)
  {
    if a.severity == b.severity && b.severity == c.severity &&
       a.sampleCount == b.sampleCount && b.sampleCount == c.sampleCount
       && a.lastSeen == b.lastSeen && b.lastSeen == c.lastSeen && IsAlert(a) == IsAlert(b) == IsAlert(c) {
      StringLessTransitive(a.id, b.id, c.id);
    }
  }

  /** On the severities that are ever assigned, the ranking is a strict total order of issues with distinct ids. */
  lemma RankingIsStrictTotalOrder(a: Issue, b: Issue, c: Issue)
    ensures !IssueLess(a, a)
    ensures a.id != b.id && IsSeverity(a.severity) ==> (IssueLess(a, b) <==> !IssueLess(b, a))
    ensures IssueLess(a, b) && IssueLess(b, c) ==> IssueLess(a, c)
  {
    StringsCompare(a.id, a.id);
    if a.id != b.id {
      OrderedUnlessUnknown(a, b);
    }
    if IssueLess(a, b) && IssueLess(b, c) {
      IssueLessTransitive(a, b, c);
    }
  }

  /** Byte-wise order, said with the first difference. */
  lemma {:induction false} StringLessAtDifference(a: string, b: string, k: nat)
    requires k <= |a| && k <= |b| && a[..k] == b[..k]
    requires k < |a| && k < |b| ==> a[k] != b[k]
    ensures StringLess(a, b) <==> k < |b| && (k == |a| || a[k] < b[k])
    decreases k
  {
    if k > 0 {
      assert a[..k][0] == b[..k][0];
      assert a[1..][..k - 1] == a[..k][1..] && b[1..][..k - 1] == b[..k][1..];
      StringLessAtDifference(a[1..], b[1..], k - 1);
    }
  }

  /** What a ranked list looks like: the first of these criteria that tells two issues apart decides. */
  ghost predicate ReadsRanked(a: Issue, b: Issue) {
    && (b.source == "alert" ==> a.source == "alert")
    && ((a.source == "alert") == (b.source == "alert") ==>
          && (a.severity == "critical" || b.severity != "critical")
          && (a.severity == "watch" ==> b.severity == "watch")
          && (a.severity == b.severity ==>
                && a.sampleCount >= b.sampleCount
                && (a.sampleCount == b.sampleCount ==> a.lastSeen >= b.lastSeen)))
  }

  /** Alerts first, then critical before high before watch, more samples first, then seen later first. */
  lemma RankedReads(s: seq<Issue>, i: nat, j: nat)
    requires IsRanked(s) && i < j < |s| && IsSeverity(s[i].severity) && IsSeverity(s[j].severity)
    ensures ReadsRanked(s[i], s[j])
    ensures s[i].(id := "") == s[j].(id := "") ==> StringLess(s[i].id, s[j].id)
  {
    assert IssueLess(s[i], s[j]);
  }

  // ---- deduplication ---------------------------------------------------------------------------

  /** The ids in the order of their first issue. */
  function FirstIds(issues: seq<Issue>): seq<string>
    decreases |issues|
  {
    if issues == [] then []
    else
      var ids, last := FirstIds(issues[..|issues| - 1]), issues[|issues| - 1].id;
      if last in ids then ids else ids + [last]
  }

  /** The first issue of `id` in which `p` holds. */
  function FirstWhere(issues: seq<Issue>, id: string, p: Issue -> bool): Option<Issue>
    decreases |issues|
  {
    if issues == [] then None
    else
      var earlier, last := FirstWhere(issues[..|issues| - 1], id, p), issues[|issues| - 1];
      if earlier.Some? then earlier else if last.id == id && p(last) then Some(last) else None
  }

  /** The issue shown for an id: its first alert if it has one, else its first issue. */
  function Representative(issues: seq<Issue>, id: string): Option<Issue> {
    var alert := FirstWhere(issues, id, IsAlert);
    if alert.Some? then alert else FirstWhere(issues, id, (i: Issue) => true)
  }

  lemma {:induction false} FirstWhereExists(issues: seq<Issue>, id: string, p: Issue -> bool)
    ensures FirstWhere(issues, id, p).Some? <==> exists i :: 0 <= i < |issues| && issues[i].id == id && p(issues[i])
    ensures FirstWhere(issues, id, p).Some? ==>
      FirstWhere(issues, id, p).value in issues && FirstWhere(issues, id, p).value.id == id &&
      p(FirstWhere(issues, id, p).value)
    decreases |issues|
  {
    if issues != [] {
      var n := |issues| - 1;
      FirstWhereExists(issues[..n], id, p);
      assert forall i :: 0 <= i < n ==> issues[i] == issues[..n][i];
    }
  }

  lemma {:induction false} FirstIdsAreIds(issues: seq<Issue>)
    ensures forall id :: id in FirstIds(issues) <==> exists i :: 0 <= i < |issues| && issues[i].id == id
    ensures forall i, j :: 0 <= i < j < |FirstIds(issues)| ==> FirstIds(issues)[i] != FirstIds(issues)[j]
    decreases |issues|
  {
    if issues != [] {
      var n := |issues| - 1;
      FirstIdsAreIds(issues[..n]);
      forall id
        ensures id in FirstIds(issues) <==> exists i :: 0 <= i < |issues| && issues[i].id == id
      {
        if id in FirstIds(issues[..n]) {
          var i :| 0 <= i < n && issues[..n][i].id == id;
          assert issues[i].id == id;
        }
        if i :| 0 <= i < |issues| && issues[i].id == id {
          assert i < n ==> issues[..n][i].id == id;
        }
      }
    }
  }

  lemma {:induction false} FirstWhereIsFirst(issues: seq<Issue>, id: string, p: Issue -> bool, i: nat)
    requires i < |issues| && issues[i].id == id && p(issues[i])
    requires forall j :: 0 <= j < i && issues[j].id == id ==> !p(issues[j])
    ensures FirstWhere(issues, id, p) == Some(issues[i])
    decreases |issues|
  {
    var n := |issues| - 1;
    FirstWhereExists(issues[..n], id, p);
    if i < n {
      FirstWhereIsFirst(issues[..n], id, p, i);
    }
  }

  /** The issue shown for an id is its first alert; without one, its first issue. */
  lemma RepresentativeExactly(issues: seq<Issue>, id: string, i: nat)
    requires i < |issues| && issues[i].id == id
    requires forall j :: 0 <= j < i && issues[j].id == id ==> issues[j].source != "alert"
    requires issues[i].source != "alert" ==>
      && (forall j :: 0 <= j < i ==> issues[j].id != id)
      && forall j :: 0 <= j < |issues| && issues[j].id == id ==> issues[j].source != "alert"
    ensures Representative(issues, id) == Some(issues[i])
  {
    FirstWhereExists(issues, id, IsAlert);
    if issues[i].source == "alert" {
      FirstWhereIsFirst(issues, id, IsAlert, i);
    } else {
      FirstWhereIsFirst(issues, id, (x: Issue) => true, i);
    }
  }

  /** Ids stand in the order in which they first appear. */
  lemma {:induction false} IdsByAppearance(issues: seq<Issue>, i: nat, j: nat, k: nat)
    requires i < j < |FirstIds(issues)| && k < |issues| && issues[k].id == FirstIds(issues)[j]
    ensures exists h :: 0 <= h < k && issues[h].id == FirstIds(issues)[i]
    decreases |issues|
  {
    var n := |issues| - 1;
    var front := issues[..n];
    FirstIdsAreIds(front);
    FirstIdsAreIds(issues);
    if j < |FirstIds(front)| {
      if k < n {
        IdsByAppearance(front, i, j, k);
        var h :| 0 <= h < k && front[h].id == FirstIds(front)[i];
        assert issues[h].id == FirstIds(issues)[i];
      } else {
        assert FirstIds(front)[i] in FirstIds(front);
        var h :| 0 <= h < n && front[h].id == FirstIds(front)[i];
        assert issues[h].id == FirstIds(issues)[i];
      }
    } else {
      assert forall x :: 0 <= x < n ==> issues[x] == front[x] && front[x].id in FirstIds(front);
      assert FirstIds(front)[i] in FirstIds(front);
      var h :| 0 <= h < n && front[h].id == FirstIds(front)[i];
      assert issues[h].id == FirstIds(issues)[i];
    }
  }

  /** Exactly one issue per id, its representative, in the order of first appearance. */
  ghost predicate IsDeduped(issues: seq<Issue>, out: seq<Issue>) {
    && |out| == |FirstIds(issues)|
    && forall i :: 0 <= i < |out| ==>
         out[i].id == FirstIds(issues)[i] && Representative(issues, out[i].id) == Some(out[i])
  }

  lemma RepresentativeNext(issues: seq<Issue>, x: Issue, id: string)
    ensures Representative(issues + [x], id) ==
      if x.id != id then Representative(issues, id)
      else match Representative(issues, id)
           case None => Some(x)
           case Some(r) => if IsAlert(x) && !IsAlert(r) then Some(x) else Some(r)
  {
    assert (issues + [x])[..|issues|] == issues;
    var any := (i: Issue) => true;
    FirstWhereExists(issues, id, IsAlert);
    FirstWhereExists(issues, id, any);
  }

  /** An id seen before: its alert replaces what stands for it, if that is none. */
  lemma SeenAgain(before: seq<Issue>, iss: Issue, out: seq<Issue>, idx: nat)
    requires IsDeduped(before, out) && idx < |out| && out[idx].id == iss.id
    ensures IsDeduped(before + [iss], if IsAlert(iss) && !IsAlert(out[idx]) then out[idx := iss] else out)
  {
    assert (before + [iss])[..|before|] == before;
    FirstIdsAreIds(before);
    forall i | 0 <= i < |out|
      ensures Representative(before + [iss], out[i].id) ==
        Some(if i == idx && IsAlert(iss) && !IsAlert(out[idx]) then iss else out[i])
    {
      RepresentativeNext(before, iss, out[i].id);
    }
  }

  /** An id not seen before comes last. */
  lemma SeenFirst(before: seq<Issue>, iss: Issue, out: seq<Issue>)
    requires IsDeduped(before, out) && forall i :: 0 <= i < |out| ==> out[i].id != iss.id
    ensures IsDeduped(before + [iss], out + [iss])
  {
    assert (before + [iss])[..|before|] == before;
    forall i | 0 <= i < |out|
      ensures Representative(before + [iss], out[i].id) == Some(out[i])
    {
      RepresentativeNext(before, iss, out[i].id);
    }
    NoRepresentative(before, iss.id);
    RepresentativeNext(before, iss, iss.id);
  }

  /** `seen` tells the place of every id in `out`. */
  ghost predicate Indexes(seen: map<string, nat>, out: seq<Issue>) {
    && (forall id :: id in seen ==> seen[id] < |out| && out[seen[id]].id == id)
    && (forall i :: 0 <= i < |out| ==> out[i].id in seen)
  }

  lemma ReplacedStaysIndexed(seen: map<string, nat>, out: seq<Issue>, idx: nat, iss: Issue)
    requires Indexes(seen, out) && idx < |out| && out[idx].id == iss.id
    ensures Indexes(seen, out[idx := iss])
  {
  }

  lemma AddedIsIndexed(seen: map<string, nat>, out: seq<Issue>, iss: Issue)
    requires Indexes(seen, out) && iss.id !in seen
    ensures Indexes(seen[iss.id := |out|], out + [iss])
  {
  }

  /** Collapse issues with the same id, preferring an alert. */
  method DedupeIssues(issues: seq<Issue>) returns (out: seq<Issue>)
    ensures IsDeduped(issues, out)
  {
    out := [];
    var seen: map<string, nat> := map[];
    for k := 0 to |issues|
      invariant IsDeduped(issues[..k], out) && Indexes(seen, out)
    {
      var iss := issues[k];
      PrefixNext(issues, k);
      if iss.id in seen {
        var idx := seen[iss.id];
        SeenAgain(issues[..k], iss, out, idx);
        ReplacedStaysIndexed(seen, out, idx, iss);
        if IsAlert(iss) && !IsAlert(out[idx]) {
          out := out[idx := iss];
        }
        continue;
      }
      SeenFirst(issues[..k], iss, out);
      AddedIsIndexed(seen, out, iss);
      seen := seen[iss.id := |out|];
      out := out + [iss];
    }
    WholePrefix(issues);
  }

  lemma NoRepresentative(issues: seq<Issue>, id: string)
    ensures Representative(issues, id).None? <==> id !in FirstIds(issues)
  {
    FirstWhereExists(issues, id, IsAlert);
    FirstWhereExists(issues, id, (i: Issue) => true);
    FirstIdsAreIds(issues);
  }

  // ---- sorting --------------------------------------------------------------------------------------

  /** Put an issue after everything it does not rank before: the library's stable sort, one element at a time. */
  function Insert(sorted: seq<Issue>, x: Issue): (r: seq<Issue>)
    ensures multiset(r) == multiset(sorted) + multiset{x}
    decreases |sorted|
  {
    if sorted != [] && IssueLess(x, sorted[|sorted| - 1]) then
      assert sorted == sorted[..|sorted| - 1] + [sorted[|sorted| - 1]];
      Insert(sorted[..|sorted| - 1], x) + [sorted[|sorted| - 1]]
    else sorted + [x]
  }

  function StableSort(issues: seq<Issue>): (r: seq<Issue>)
    ensures multiset(r) == multiset(issues)
    decreases |issues|
  {
    if issues == [] then []
    else
      assert issues == issues[..|issues| - 1] + [issues[|issues| - 1]];
      Insert(StableSort(issues[..|issues| - 1]), issues[|issues| - 1])
  }

  /** Each issue ranks strictly before every later one. */
  ghost predicate IsRanked(s: seq<Issue>) {
    forall i, j :: 0 <= i < j < |s| ==> IssueLess(s[i], s[j])
  }

  /** All severities are known and no id occurs twice. */
  ghost predicate IsComparable(s: seq<Issue>) {
    && (forall i :: 0 <= i < |s| ==> IsSeverity(s[i].severity))
    && (forall i, j :: 0 <= i < j < |s| ==> s[i].id != s[j].id)
  }

  lemma RankedSnoc(s: seq<Issue>, last: Issue)
    requires IsRanked(s) && forall i :: 0 <= i < |s| ==> IssueLess(s[i], last)
    ensures IsRanked(s + [last])
  {
  }

  /** What ranks before `last` still does with `x` inserted among it. */
  lemma InsertStaysBefore(sorted: seq<Issue>, x: Issue, last: Issue)
    requires (forall i :: 0 <= i < |sorted| ==> IssueLess(sorted[i], last)) && IssueLess(x, last)
    ensures forall i :: 0 <= i < |Insert(sorted, x)| ==> IssueLess(Insert(sorted, x)[i], last)
    decreases |sorted|
  {
    if sorted != [] {
      InsertStaysBefore(sorted[..|sorted| - 1], x, last);
    }
  }

  /** What ranks after the last of a ranked list ranks after all of it. */
  lemma AfterLastIsAfterAll(sorted: seq<Issue>, x: Issue)
    requires IsRanked(sorted) && sorted != [] && IssueLess(sorted[|sorted| - 1], x)
    ensures forall i :: 0 <= i < |sorted| ==> IssueLess(sorted[i], x)
  {
    forall i | 0 <= i < |sorted| - 1
      ensures IssueLess(sorted[i], x)
    {
      IssueLessTransitive(sorted[i], sorted[|sorted| - 1], x);
    }
  }

  lemma {:induction false} InsertRanks(sorted: seq<Issue>, x: Issue)
    requires IsRanked(sorted) && IsSeverity(x.severity)
    requires forall i :: 0 <= i < |sorted| ==> IsSeverity(sorted[i].severity) && sorted[i].id != x.id
    ensures IsRanked(Insert(sorted, x))
    decreases |sorted|
  {
    if sorted != [] {
      var front, last := sorted[..|sorted| - 1], sorted[|sorted| - 1];
      OrderedUnlessUnknown(x, last);
      if IssueLess(x, last) {
        InsertRanks(front, x);
        InsertStaysBefore(front, x, last);
        RankedSnoc(Insert(front, x), last);
      } else {
        AfterLastIsAfterAll(sorted, x);
        RankedSnoc(sorted, x);
      }
    }
  }

  lemma {:induction false} StableSortRanks(issues: seq<Issue>)
    requires IsComparable(issues)
    ensures IsRanked(StableSort(issues))
    decreases |issues|
  {
    if issues != [] {
      var n := |issues| - 1;
      var front := issues[..n];
      StableSortRanks(front);
      var sorted := StableSort(front);
      forall i | 0 <= i < |sorted|
        ensures IsSeverity(sorted[i].severity) && sorted[i].id != issues[n].id
      {
        assert sorted[i] in multiset(front);
        var k :| 0 <= k < n && front[k] == sorted[i];
        assert issues[k] == front[k];
      }
      InsertRanks(sorted, issues[n]);
    }
  }

  lemma IssueLessAsymmetric(a: Issue, b: Issue)
    ensures !(IssueLess(a, b) && IssueLess(b, a))
  {
    StringsCompare(a.id, b.id);
  }

  lemma HeadsAgree(a: seq<Issue>, b: seq<Issue>)
    requires IsRanked(a) && IsRanked(b) && multiset(a) == multiset(b) && a != []
    ensures b != [] && a[0] == b[0]
  {
    assert a[0] in multiset(b);
    var i :| 0 <= i < |b| && b[i] == a[0];
    assert b[0] in multiset(a);
    var j :| 0 <= j < |a| && a[j] == b[0];
    IssueLessAsymmetric(a[0], b[0]);
  }

  /** There is only one way to rank a set of issues. */
  lemma {:induction false} RankingIsUnique(a: seq<Issue>, b: seq<Issue>)
    requires IsRanked(a) && IsRanked(b) && multiset(a) == multiset(b)
    ensures a == b
    decreases |a|
  {
    if a == [] {
      assert |multiset(b)| == 0;
    } else {
      HeadsAgree(a, b);
      assert a == [a[0]] + a[1..];
      assert b == [a[0]] + b[1..];
      assert multiset(a[1..]) == multiset(a) - multiset{a[0]};
      assert multiset(b[1..]) == multiset(b) - multiset{a[0]};
      RankingIsUnique(a[1..], b[1..]);
    }
  }

  // ---- filter and limit ------------------------------------------------------------------------------

  predicate Passes(severity: string, i: Issue) {
    severity == "" || i.severity == severity
  }

  function Filtered(severity: string, issues: seq<Issue>): seq<Issue> {
    FlatMap((i: Issue) => if Passes(severity, i) then [i] else [], issues)
  }

  lemma {:induction false} NoFilter(s: seq<Issue>)
    ensures Filtered("", s) == s
    decreases |s|
  {
    if s != [] {
      NoFilter(s[..|s| - 1]);
      TakeAndDrop(s, |s| - 1);
    }
  }

  /** Keep the issues of a severity at the front of the array and tell how many there are. */
  method FilterInPlace(a: array<Issue>, severity: string) returns (n: nat)
    requires severity != ""
    modifies a
    ensures n <= a.Length && a[..n] == Filtered(severity, old(a[..]))
  {
    n := 0;
    ghost var was, keep := a[..], (i: Issue) => if Passes(severity, i) then [i] else [];
    for k := 0 to a.Length
      invariant n <= k && a[..n] == Filtered(severity, was[..k])
      invariant forall i :: k <= i < a.Length ==> a[i] == was[i]
    {
      FlatMapNext(keep, was, k);
      var iss := a[k];
      if iss.severity == severity {
        a[n] := iss;
        n := n + 1;
      }
    }
    WholePrefix(was);
  }

  /** The severity filter, applied only when a severity is asked for. */
  method SeverityOnly(ranked: seq<Issue>, severity: string) returns (kept: seq<Issue>)
    ensures kept == Filtered(severity, ranked)
  {
    if severity == "" {
      NoFilter(ranked);
      return ranked;
    }
    var a := new Issue[|ranked|](i requires 0 <= i < |ranked| => ranked[i]);
    assert a[..] == ranked;
    var n := FilterInPlace(a, severity);
    kept := a[..n];
  }

  function ResponseLimit(n: int): (r: nat)
    ensures 1 <= r <= 50
    ensures 1 <= n <= 50 ==> r == n
    ensures n < 1 ==> r == 10
    ensures n > 50 ==> r == 50
  {
    var n := if n < 1 then 10 else n;
    if n > 50 then 50 else n
  }

  /** The issues of one id each, ranked, filtered and cut off. */
  method Respond(issues: seq<Issue>, severity: string, limitParam: int) returns (response: seq<Issue>)
    ensures exists unique: seq<Issue> ::
      IsDeduped(issues, unique) && response == Cut(Filtered(severity, StableSort(unique)), ResponseLimit(limitParam))
  {
    var limit := ResponseLimit(limitParam);
    var unique := DedupeIssues(issues);
    response := SeverityOnly(StableSort(unique), severity);
    if |response| > limit {
      response := response[..limit];
    }
  }

  function Cut(s: seq<Issue>, limit: nat): seq<Issue> {
    s[..Min(limit, |s|)]
  }

  lemma {:induction false} FilteredKeepsRank(severity: string, s: seq<Issue>)
    requires IsRanked(s)
    ensures IsRanked(Filtered(severity, s))
    ensures forall x :: x in Filtered(severity, s) <==> x in s && Passes(severity, x)
    decreases |s|
  {
    if s != [] {
      var n := |s| - 1;
      FilteredKeepsRank(severity, s[..n]);
      var front := Filtered(severity, s[..n]);
      forall x
        ensures x in Filtered(severity, s) <==> x in s && Passes(severity, x)
      {
        assert x in s <==> x in s[..n] || x == s[n];
      }
      forall i | 0 <= i < |front|
        ensures IssueLess(front[i], s[n])
      {
        assert front[i] in s[..n];
        var k :| 0 <= k < n && s[..n][k] == front[i];
        assert s[k] == front[i];
      }
    }
  }

  lemma DedupedIsComparable(issues: seq<Issue>, unique: seq<Issue>)
    requires IsDeduped(issues, unique) && forall i :: 0 <= i < |issues| ==> IsSeverity(issues[i].severity)
    ensures IsComparable(unique)
  {
    FirstIdsAreIds(issues);
    forall i | 0 <= i < |unique|
      ensures IsSeverity(unique[i].severity)
    {
      FirstWhereExists(issues, unique[i].id, IsAlert);
      FirstWhereExists(issues, unique[i].id, (i: Issue) => true);
      assert unique[i] in issues;
    }
  }

  /** The response is the top of the ranking: its issues, in rank order, precede every other of the severity. */
  lemma ResponseIsTop(issues: seq<Issue>, unique: seq<Issue>, severity: string, limit: nat, response: seq<Issue>)
    requires forall i :: 0 <= i < |issues| ==> IsSeverity(issues[i].severity)
    requires IsDeduped(issues, unique) && response == Cut(Filtered(severity, StableSort(unique)), limit)
    ensures IsRanked(response) && |response| <= limit
    ensures forall x :: x in response ==> x in unique && (severity == "" || x.severity == severity)
    ensures forall x, y ::
      x in unique && (severity == "" || x.severity == severity) && x !in response && y in response ==>
        IssueLess(y, x)
    ensures |response| < limit ==>
      forall x :: x in unique && (severity == "" || x.severity == severity) ==> x in response
  {
    DedupedIsComparable(issues, unique);
    StableSortRanks(unique);
    var sorted := StableSort(unique);
    FilteredKeepsRank(severity, sorted);
    CutIsTop(Filtered(severity, sorted), limit);
    forall x
      ensures x in sorted <==> x in unique
    {
      assert x in multiset(sorted) <==> x in multiset(unique);
    }
  }

  /** The front of a ranked list precedes everything cut off. */
  lemma CutIsTop(all: seq<Issue>, limit: nat)
    requires IsRanked(all)
    ensures var top := Cut(all, limit);
      && IsRanked(top) && |top| <= limit
      && (forall x :: x in top ==> x in all)
      && (forall x, y :: x in all && x !in top && y in top ==> IssueLess(y, x))
      && (|top| < limit ==> forall x :: x in all ==> x in top)
  {
    var top := Cut(all, limit);
    assert forall k :: 0 <= k < |top| ==> top[k] == all[k] && all[k] in top;
    forall x, y | x in all && x !in top && y in top
      ensures IssueLess(y, x)
    {
      var i :| 0 <= i < |all| && all[i] == x;
      var j :| 0 <= j < |top| && top[j] == y;
    }
  }

  /** The same ids with the same representatives have the same response, whatever the order of arrival. */
  lemma ResponseIgnoresOrder(a: seq<Issue>, b: seq<Issue>, ua: seq<Issue>, ub: seq<Issue>)
    requires forall i :: 0 <= i < |a| ==> IsSeverity(a[i].severity)
    requires forall i :: 0 <= i < |b| ==> IsSeverity(b[i].severity)
    requires forall id :: Representative(a, id) == Representative(b, id)
    requires IsDeduped(a, ua) && IsDeduped(b, ub)
    ensures StableSort(ua) == StableSort(ub)
  {
    DedupedIsComparable(a, ua);
    DedupedIsComparable(b, ub);
    SameMembers(a, b, ua, ub);
    SameMembers(b, a, ub, ua);
    SameSetSameMultiset(ua, ub);
    StableSortRanks(ua);
    StableSortRanks(ub);
    RankingIsUnique(StableSort(ua), StableSort(ub));
  }

  lemma SameMembers(a: seq<Issue>, b: seq<Issue>, ua: seq<Issue>, ub: seq<Issue>)
    requires forall id :: Representative(a, id) == Representative(b, id)
    requires IsDeduped(a, ua) && IsDeduped(b, ub)
    ensures forall x :: x in ua ==> x in ub
  {
    forall x | x in ua
      ensures x in ub
    {
      NoRepresentative(a, x.id);
      NoRepresentative(b, x.id);
      var k :| 0 <= k < |ub| && FirstIds(b)[k] == x.id;
      assert ub[k].id == x.id;
    }
  }

  lemma SameSetSameMultiset(a: seq<Issue>, b: seq<Issue>)
    requires IsComparable(a) && IsComparable(b)
    requires (forall x :: x in a ==> x in b) && (forall x :: x in b ==> x in a)
    ensures multiset(a) == multiset(b)
  {
    forall x
      ensures multiset(a)[x] == multiset(b)[x]
    {
      OccursOnce(a, x);
      OccursOnce(b, x);
    }
  }

  lemma {:induction false} OccursOnce(a: seq<Issue>, x: Issue)
    requires IsComparable(a)
    ensures multiset(a)[x] == if x in a then 1 else 0
    decreases |a|
  {
    if a != [] {
      var n := |a| - 1;
      OccursOnce(a[..n], x);
      assert a == a[..n] + [a[n]];
    }
  }

  /** With distinct ids, any permutation of the input has the same representatives. */
  lemma PermutationKeepsRepresentatives(a: seq<Issue>, b: seq<Issue>, id: string)
    requires multiset(a) == multiset(b) && forall i, j :: 0 <= i < j < |a| ==> a[i].id != a[j].id
    ensures Representative(a, id) == Representative(b, id)
  {
    var any := (i: Issue) => true;
    FirstWhereExists(a, id, IsAlert);
    FirstWhereExists(a, id, any);
    FirstWhereExists(b, id, IsAlert);
    FirstWhereExists(b, id, any);
    assert forall x :: x in a <==> x in multiset(a);
    assert forall x :: x in b <==> x in multiset(b);
    assert forall x, y :: x in a && y in a && x.id == y.id ==> x == y;
    forall i | 0 <= i < |a|
      ensures a[i] in b
    {
      assert a[i] in multiset(b);
    }
  }

  /** Issues with distinct ids get the same response in whatever order they are collected. */
  lemma PermutedResponse(a: seq<Issue>, b: seq<Issue>, ua: seq<Issue>, ub: seq<Issue>, severity: string, limit: nat)
    requires multiset(a) == multiset(b) && IsComparable(a) && IsDeduped(a, ua) && IsDeduped(b, ub)
    ensures Cut(Filtered(severity, StableSort(ua)), limit) == Cut(Filtered(severity, StableSort(ub)), limit)
  {
    forall i | 0 <= i < |b|
      ensures IsSeverity(b[i].severity)
    {
      assert b[i] in multiset(a);
    }
    forall id
      ensures Representative(a, id) == Representative(b, id)
    {
      PermutationKeepsRepresentatives(a, b, id);
    }
    ResponseIgnoresOrder(a, b, ua, ub);
  }
}
